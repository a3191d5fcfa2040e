/**
 * The desktop window's logic around the REST API: the lesson tree's expanded set, the
 * "new project" form (lesson generation and the lesson-count field), adding lessons and
 * URLs to the selected project, the Download button and the progress poll.
 * The API calls act directly on the backend store.
 */
module DesktopApp {
  import opened Wrappers
  import opened Models
  import Strings
  import ProjectService
  import DownloadService
  import DownloadsRouter

  // ----- Lesson tree -----

  /** The set after one click on a lesson: that id flips, no other id changes. */
  function Toggle(s: set<Id>, id: Id): (r: set<Id>)
    ensures id in r <==> id !in s
    ensures forall x :: x != id ==> (x in r <==> x in s)
  {
    if id in s then s - {id} else s + {id}
  }

  /** Two clicks on the same lesson restore the set. */
  lemma ToggleTwice(s: set<Id>, id: Id)
    ensures Toggle(Toggle(s, id), id) == s
  {
    if id in s {
      assert Toggle(s, id) + {id} == s;
    } else {
      assert Toggle(s, id) - {id} == s;
    }
  }

  class LessonTree {
    /** The ids of the lessons whose URL lists are shown. */
    var expandedLessons: set<Id>

    constructor ()
      ensures expandedLessons == {}
    {
      expandedLessons := {};
    }

    /** `toggleLesson`: copies the set, deletes or adds the id, stores the copy. */
    method ToggleLesson(lessonId: Id)
      modifies this
      ensures expandedLessons == Toggle(old(expandedLessons), lessonId)
    {
      var newExpanded := expandedLessons;
      if lessonId in newExpanded {
        newExpanded := newExpanded - {lessonId};
      } else {
        newExpanded := newExpanded + {lessonId};
      }
      expandedLessons := newExpanded;
    }
  }

  // ----- New project form -----

  /** The title of the i-th generated lesson. */
  function LessonTitle(i: nat): string {
    "Lesson " + Strings.NatStr(i)
  }

  /** Generated titles are pairwise different. */
  lemma LessonTitleInjective(a: nat, b: nat)
    ensures LessonTitle(a) == LessonTitle(b) ==> a == b
  {
    if LessonTitle(a) == LessonTitle(b) {
      assert Strings.NatStr(a) == LessonTitle(a)[7..];
      assert Strings.NatStr(b) == LessonTitle(b)[7..];
      Strings.NatStrInjective(a, b);
    }
  }

  /** Every lesson's order is its 1-based position in the list. */
  predicate OrdersArePositions(lessons: seq<Lesson>) {
    forall k :: 0 <= k < |lessons| ==> lessons[k].order == k + 1
  }

  /** The lessons the form generates for a count: "Lesson i" with order i, for i = 1..count. */
  ghost predicate GeneratedLessons(lessons: seq<Lesson>, lessonCount: int) {
    |lessons| == (if lessonCount > 0 then lessonCount else 0)
    && forall k :: 0 <= k < |lessons| ==>
         lessons[k].title == LessonTitle(k + 1) && lessons[k].order == k + 1 && lessons[k].urls == []
  }

  /** The generated lessons have distinct titles and orders that are their positions. */
  lemma GeneratedLessonsProperties(lessons: seq<Lesson>, lessonCount: int)
    requires GeneratedLessons(lessons, lessonCount)
    ensures OrdersArePositions(lessons)
    ensures forall a, b :: 0 <= a < b < |lessons| ==> lessons[a].title != lessons[b].title
  {
    forall a, b | 0 <= a < b < |lessons|
      ensures lessons[a].title != lessons[b].title
    {
      LessonTitleInjective(a + 1, b + 1);
    }
  }

  /** `after` is `before` plus one new project `pid`; the saved projects are unchanged. */
  ghost predicate AddsProject(before: map<Id, Project>, after: map<Id, Project>, pid: Id) {
    pid !in before && after.Keys == before.Keys + {pid}
    && forall q :: q in before ==> after[q] == before[q]
  }

  lemma AddsProjectUpdate(before: map<Id, Project>, after: map<Id, Project>, pid: Id, p: Project)
    requires AddsProject(before, after, pid)
    ensures AddsProject(before, after[pid := p], pid)
  {
  }

  /** The project the form creates: its name and location, no description, the generated lessons. */
  ghost predicate FormProject(p: Project, name: string, location: string, lessonCount: int) {
    p.name == name && p.saveLocation == location && p.description == None
    && GeneratedLessons(p.lessons, lessonCount)
  }

  /** Adding "Lesson i" with order i after lessons 1 .. i-1 gives lessons 1 .. i. */
  lemma GeneratedStep(lessons: seq<Lesson>, i: nat, l: Lesson)
    requires i >= 1 && GeneratedLessons(lessons, i - 1)
    requires l.title == LessonTitle(i) && l.order == i && l.urls == []
    ensures GeneratedLessons(lessons + [l], i)
  {
    var ls := lessons + [l];
    forall k | 0 <= k < |ls|
      ensures ls[k].title == LessonTitle(k + 1) && ls[k].order == k + 1 && ls[k].urls == []
    {
      if k < |lessons| {
        assert ls[k] == lessons[k];
      }
    }
  }

  /**
   * `handleCreateProject`: nothing happens when the name or the location is empty;
   * otherwise one new project is created and then receives "Lesson 1" .. "Lesson n",
   * with orders 1 .. n, one `add_lesson` call each; saved projects stay as they were.
   */
  method HandleCreateProject(store: ProjectService.ProjectStore, name: string, location: string, lessonCount: int, now: Clock)
    returns (created: Option<Id>)
    requires store.Valid()
    modifies store
    ensures store.Valid()
    ensures name == "" || location == "" ==>
      created == None && store.projects == old(store.projects) && store.nextId == old(store.nextId)
    ensures name != "" && location != "" ==>
      created.Some? && AddsProject(old(store.projects), store.projects, created.value)
      && FormProject(store.projects[created.value], name, location, lessonCount)
  {
    if name == "" || location == "" {
      return None;
    }
    var project := store.CreateProject(ProjectCreate(name, location), now);
    var pid := project.id;
    var i := 1;
    while i <= lessonCount
      invariant 1 <= i && (lessonCount >= 1 ==> i <= lessonCount + 1) && (lessonCount < 1 ==> i == 1)
      invariant store.Valid()
      invariant AddsProject(old(store.projects), store.projects, pid)
      invariant FormProject(store.projects[pid], name, location, i - 1)
    {
      ghost var before := store.projects;
      var added := store.AddLesson(pid, LessonCreate(LessonTitle(i), Some(i)), now);
      ghost var p := before[pid];
      assert store.projects == before[pid := p.(lessons := p.lessons + [added.value], updatedAt := now)];
      AddsProjectUpdate(old(store.projects), before, pid, store.projects[pid]);
      GeneratedStep(p.lessons, i, added.value);
      i := i + 1;
    }
    created := Some(pid);
  }

  // ----- Lesson-count field -----

  /** Length of the longest prefix of decimal digits. */
  function DigitPrefix(s: string): (k: nat)
    ensures k <= |s| && Strings.AllDigits(s[..k])
    ensures k < |s| ==> !Strings.IsDigit(s[k])
  {
    if s == [] || !Strings.IsDigit(s[0]) then 0
    else
      var k := DigitPrefix(s[1..]);
      assert s[..k + 1] == [s[0]] + s[1..][..k];
      k + 1
  }

  /**
   * JavaScript's `parseInt` in base 10: leading white space is skipped, a sign is read,
   * then the longest run of digits; no digits gives NaN (`None`).
   */
  function ParseInt(s: string): (r: Option<int>) {
    var t := s[Strings.LeadingSpace(s)..];
    var negative := |t| > 0 && t[0] == '-';
    var body := if |t| > 0 && (t[0] == '-' || t[0] == '+') then t[1..] else t;
    var k := DigitPrefix(body);
    if k == 0 then None
    else
      var v: int := Strings.DigitsValue(body[..k]);
      Some(if negative then -v else v)
  }

  /** `parseInt` reads a number only when the text holds a digit. */
  lemma ParseIntNeedsDigit(s: string)
    ensures ParseInt(s).Some? ==> exists k :: 0 <= k < |s| && Strings.IsDigit(s[k])
  {
    var t := s[Strings.LeadingSpace(s)..];
    var body := if |t| > 0 && (t[0] == '-' || t[0] == '+') then t[1..] else t;
    if ParseInt(s).Some? {
      assert Strings.IsDigit(body[0]);
      assert body[0] == s[|s| - |body|];
    }
  }

  /** Leading white space does not change what `parseInt` reads. */
  lemma ParseIntSkipsSpace(s: string, c: char)
    requires Strings.IsSpace(c)
    ensures ParseInt([c] + s) == ParseInt(s)
  {
    var m := [c] + s;
    assert m[1..] == s;
    assert Strings.LeadingSpace(m) == 1 + Strings.LeadingSpace(s);
    assert m[1 + Strings.LeadingSpace(s)..] == s[Strings.LeadingSpace(s)..];
  }

  /** A run of digits reads as its decimal value, and after a '-' as its negation. */
  lemma ParseIntDigits(s: string)
    requires s != [] && Strings.AllDigits(s)
    ensures ParseInt(s) == Some(Strings.DigitsValue(s))
    ensures ParseInt(['-'] + s) == Some(-(Strings.DigitsValue(s) as int))
  {
    assert !Strings.IsSpace(s[0]) && s[0] != '-' && s[0] != '+';
    DigitPrefixAll(s);
    assert s[..|s|] == s;
    var m := ['-'] + s;
    assert !Strings.IsSpace(m[0]);
    assert Strings.LeadingSpace(m) == 0;
    assert m[0..] == m && m[1..] == s;
  }

  /** `Math.max(1, parseInt(value) || 1)`: NaN and 0 fall back to 1, then the count is at least 1. */
  function ClampLessonCount(value: string): (n: int)
    ensures n >= 1
    ensures ParseInt(value).Some? && ParseInt(value).value >= 1 ==> n == ParseInt(value).value
    ensures ParseInt(value).None? || ParseInt(value).value < 1 ==> n == 1
  {
    var parsed := ParseInt(value);
    var v := if parsed.Some? && parsed.value != 0 then parsed.value else 1;
    if 1 < v then v else 1
  }

  lemma {:induction false} DigitPrefixAll(s: string)
    requires Strings.AllDigits(s)
    ensures DigitPrefix(s) == |s|
  {
    if s != [] {
      DigitPrefixAll(s[1..]);
    }
  }

  /** A positive count written out in decimal reads back as itself. */
  lemma ClampLessonCountRoundTrip(n: nat)
    requires n >= 1
    ensures ClampLessonCount(Strings.NatStr(n)) == n
  {
    var s := Strings.NatStr(n);
    assert !Strings.IsSpace(s[0]);
    assert Strings.LeadingSpace(s) == 0;
    assert s[0] != '-' && s[0] != '+';
    DigitPrefixAll(s);
    assert s[..|s|] == s;
    Strings.NatStrRoundTrip(n);
  }

  // ----- Lessons and URLs of the selected project -----

  /**
   * `handleAddLesson`: needs a selected project and a non-empty title, and asks for the
   * order one past the number of lessons the window shows. When the window's copy of
   * the project is current, the new lesson's order is its position, so orders that were
   * positions stay positions.
   */
  method HandleAddLesson(store: ProjectService.ProjectStore, selected: Option<Project>, title: string, now: Clock)
    returns (r: Option<Lesson>)
    requires store.Valid()
    modifies store
    ensures store.Valid()
    ensures selected.None? || title == "" || selected.value.id !in old(store.projects) ==>
      r == None && store.projects == old(store.projects) && store.nextId == old(store.nextId)
    ensures selected.Some? && title != "" && selected.value.id in old(store.projects) ==>
      var p := old(store.projects)[selected.value.id];
      r == Some(NewLesson(old(store.nextId), title, |selected.value.lessons| + 1, now))
      && store.projects == old(store.projects)[selected.value.id := p.(lessons := p.lessons + [r.value], updatedAt := now)]
    ensures (selected.Some? && title != "" && selected.value.id in old(store.projects)
             && old(store.projects)[selected.value.id] == selected.value) ==>
      r.Some? && store.projects[selected.value.id].lessons == selected.value.lessons + [r.value]
      && r.value.order == |store.projects[selected.value.id].lessons|
      && (OrdersArePositions(selected.value.lessons) ==> OrdersArePositions(store.projects[selected.value.id].lessons))
  {
    if selected.None? || title == "" {
      return None;
    }
    var project := selected.value;
    r := store.AddLesson(project.id, LessonCreate(title, Some(|project.lessons| + 1)), now);
  }

  /**
   * `handleAddURL`: needs a selected project and a non-empty URL and sends no part number,
   * so the backend numbers the URL one past the lesson's URL count: its position.
   */
  method HandleAddUrl(store: ProjectService.ProjectStore, selected: Option<Project>, lessonId: Id, url: string, now: Clock)
    returns (r: Option<LessonUrl>)
    requires store.Valid()
    modifies store
    ensures store.Valid()
    ensures selected.None? || url == "" || selected.value.id !in old(store.projects) ==>
      r == None && store.projects == old(store.projects) && store.nextId == old(store.nextId)
    ensures selected.Some? && url != "" && selected.value.id in old(store.projects) ==>
      var p := old(store.projects)[selected.value.id];
      var i := ProjectService.FirstLesson(p.lessons, lessonId);
      if i == |p.lessons| then r == None && store.projects == old(store.projects) && store.nextId == old(store.nextId)
      else
        var l := p.lessons[i];
        r == Some(NewLessonUrl(old(store.nextId), url, |l.urls| + 1))
        && store.projects == old(store.projects)[selected.value.id :=
             p.(lessons := p.lessons[i := l.(urls := l.urls + [r.value], updatedAt := now)], updatedAt := now)]
        && r.value.partNumber == |store.projects[selected.value.id].lessons[i].urls|
  {
    if selected.None? || url == "" {
      return None;
    }
    r := store.AddUrl(selected.value.id, lessonId, UrlAdd(url), now);
  }

  class UrlInput {
    /** The text field's contents. */
    var url: string

    constructor ()
      ensures url == ""
    {
      url := "";
    }

    /**
     * `handleSubmit`: hands on the trimmed text and clears the field, unless the text is
     * only white space, in which case nothing happens.
     */
    method HandleSubmit() returns (added: Option<string>)
      modifies this
      ensures added.None? <==> Strings.AllSpace(old(url))
      ensures added.None? ==> url == old(url)
      ensures added.Some? ==>
        added.value == Strings.Trim(old(url)) && url == ""
        && added.value != "" && Strings.Trim(added.value) == added.value
    {
      var trimmed := Strings.Trim(url);
      Strings.TrimProperties(url);
      if trimmed != "" {
        Strings.TrimIdempotent(url);
        added := Some(trimmed);
        url := "";
      } else {
        added := None;
      }
    }
  }

  // ----- Download button and progress poll -----

  /** The Download button's `disabled`: while downloading, or when no lesson has a URL. */
  predicate DownloadDisabled(downloading: bool, p: Project) {
    downloading || forall k :: 0 <= k < |p.lessons| ==> |p.lessons[k].urls| == 0
  }

  lemma {:induction false} NoUrlsIffZero(ls: seq<Lesson>)
    ensures (forall k :: 0 <= k < |ls| ==> |ls[k].urls| == 0) <==> DownloadService.TotalUrls(ls) == 0
  {
    if ls != [] {
      NoUrlsIffZero(ls[1..]);
      assert forall k :: 1 <= k < |ls| ==> ls[k] == ls[1..][k - 1];
    }
  }

  /**
   * The button is enabled exactly when nothing is downloading and the project has a URL;
   * a project without lessons disables it, and an enabled button starts at least one
   * download job.
   */
  lemma DownloadEnabledMeansWork(downloading: bool, p: Project)
    ensures !DownloadDisabled(downloading, p) <==> !downloading && DownloadService.TotalUrls(p.lessons) > 0
    ensures p.lessons == [] ==> DownloadDisabled(downloading, p)
    ensures !DownloadDisabled(downloading, p) && DownloadService.DistinctLessonIds(p.lessons) ==>
      |DownloadService.ProjectJobs(p, None)| > 0
  {
    NoUrlsIffZero(p.lessons);
    if DownloadService.DistinctLessonIds(p.lessons) {
      DownloadService.AllLessonsJobCount(p);
    }
  }

  /**
   * The poll loop's decision after one status request, as written: poll again unless the
   * overall status is "completed" or "failed"; a failed request stops polling.
   */
  predicate PollAgain(answer: Result<DownloadsRouter.StatusReport, DownloadsRouter.HttpError>) {
    answer.Ok? && answer.value.status.Value() != "completed" && answer.value.status.Value() != "failed"
  }

  /** "pending", "downloading" and "partial" all keep the loop polling. */
  lemma PollAgainMeaning(answer: Result<DownloadsRouter.StatusReport, DownloadsRouter.HttpError>)
    ensures PollAgain(answer) <==>
      answer.Ok? && (answer.value.status == DownloadsRouter.OverallPending
                     || answer.value.status == DownloadsRouter.OverallDownloading
                     || answer.value.status == DownloadsRouter.Partial)
  {
  }

  /**
   * A download that has ended with one URL completed and one failed reports "partial",
   * and since no further reports arrive the loop polls forever.
   */
  lemma PollNeverStopsAfterMixedOutcome(done: DownloadProgress, failed: DownloadProgress)
    requires done.status == Completed && failed.status == Failed
    ensures var report := DownloadsRouter.Summarize(0, [done, failed]);
      report.status == DownloadsRouter.Partial && PollAgain(Ok(report))
  {
    CountPair(done, failed, Completed);
    CountPair(done, failed, Failed);
    CountPair(done, failed, Downloading);
  }

  lemma CountPair(a: DownloadProgress, b: DownloadProgress, s: DownloadStatus)
    ensures DownloadsRouter.Count([a, b], s) == (if a.status == s then 1 else 0) + (if b.status == s then 1 else 0)
  {
    var r := [a, b];
    assert r[..|r| - 1] == [a] && r[|r| - 1] == b;
    assert [a][..0] == [];
    assert DownloadsRouter.Count([a], s) == (if a.status == s then 1 else 0);
  }

  /**
   * The same answer arises from `download_project`'s own reports: when the first of two URLs
   * finishes and the second raises, the tracker fed with everything the callback received
   * holds one COMPLETED and one FAILED record, so the status is "partial" and polling goes on.
   */
  lemma MixedProjectRunPollsForever(jobs: seq<DownloadService.Job>, transfers: DownloadService.Job -> DownloadService.Transfer,
                                    filename: string, message: string)
    requires |jobs| == 2 && jobs[0].urlId != jobs[1].urlId
    requires transfers(jobs[0]) == DownloadService.Transfer([DownloadService.HookEvent("finished", filename)], DownloadService.Returned)
    requires transfers(jobs[1]) == DownloadService.Transfer([], DownloadService.Raised(message))
    ensures var records := DownloadsRouter.UpsertAll([], DownloadService.AllReports(jobs, transfers));
      var report := DownloadsRouter.Summarize(0, records);
      report.status == DownloadsRouter.Partial && PollAgain(Ok(report))
  {
    var f := DownloadService.ReportsOf(transfers);
    var done := DownloadProgress(jobs[0].lessonId, jobs[0].urlId, Completed, Some(filename));
    var failed := DownloadProgress(jobs[1].lessonId, jobs[1].urlId, Failed, None, Some(message));
    assert f(jobs[0]) == [done] by {
      var events := [DownloadService.HookEvent("finished", filename)];
      assert events[..0] == [];
      assert DownloadService.HookState(events, jobs[0].urlId, jobs[0].lessonId) == done;
      assert DownloadService.HookReports(events, jobs[0].urlId, jobs[0].lessonId) == [done];
    }
    assert f(jobs[1]) == [failed];
    assert DownloadService.AllReports(jobs, transfers) == [done, failed] by {
      assert jobs[1..][1..] == [];
      assert DownloadService.FlatMap(jobs[1..], f) == [failed];
    }
    assert DownloadsRouter.UpsertAll([], [done, failed]) == [done, failed] by {
      assert DownloadsRouter.Upsert([], done) == [done];
      assert DownloadsRouter.IndexOfUrl([done], failed.urlId) == 1 by {
        ProjectService.FirstIndexIsFirstMatch([done], DownloadsRouter.RecordUrlId, failed.urlId, 1);
      }
      assert DownloadsRouter.Upsert([done], failed) == [done, failed];
      assert [done, failed][1..] == [failed] && [failed][1..] == [];
      assert DownloadsRouter.UpsertAll([], [done, failed]) == DownloadsRouter.UpsertAll([done], [failed]);
      assert DownloadsRouter.UpsertAll([done], [failed]) == DownloadsRouter.UpsertAll([done, failed], []);
    }
    PollNeverStopsAfterMixedOutcome(done, failed);
  }

  /** The poll decision that also stops on "partial". */
  predicate PollAgainCorrected(answer: Result<DownloadsRouter.StatusReport, DownloadsRouter.HttpError>) {
    answer.Ok? && answer.value.status.Value() != "completed" && answer.value.status.Value() != "failed"
    && answer.value.status.Value() != "partial"
  }

  /**
   * With the corrected decision, polling stops as soon as every record is finished
   * (completed or failed), and goes on while any URL is still downloading.
   */
  lemma PollAgainCorrectedStops(id: Id, records: seq<DownloadProgress>)
    ensures records != [] && (forall k :: 0 <= k < |records| ==> records[k].status == Completed || records[k].status == Failed) ==>
      !PollAgainCorrected(Ok(DownloadsRouter.Summarize(id, records)))
    ensures DownloadsRouter.SomeIn(records, Downloading) ==> PollAgainCorrected(Ok(DownloadsRouter.Summarize(id, records)))
  {
    DownloadsRouter.SummarizeMeaning(id, records);
  }
}
