# Course Grabber — a Dafny model of its core

Course Grabber organises video courses into projects: a project has an ordered list of
lessons, each lesson an ordered list of video URLs. A FastAPI backend stores projects,
downloads every URL of a project through yt-dlp, and tracks each download's progress. A
desktop window edits projects and starts downloads. A browser-extension popup lists the
videos found on the open page.

The Dafny project models the sequential logic of that system:

- `wrappers.dfy` — `Option` and `Result`.
- `strings.dfy` — the text operations the core uses:
  - decimal rendering of integers (Python f-strings, JavaScript template strings);
  - joining and splitting at a separator;
  - JavaScript's `trim`.
- `models.dfy` — the pydantic records: statuses, URLs, lessons, projects, the request bodies
  and the progress record, with their defaults.
- `project_service.dfy` — the project store. `ProjectStore` holds the projects in a map
  from id to project. Its methods implement create, update, delete and list for projects,
  and add, update and delete for lessons and URLs. A counter supplies fresh ids.
- `download_service.dfy` — the yt-dlp options, the life of one URL's download, the output
  file names, and the lesson selection and result order of a project download.
- `downloads_router.dfy` — the download tracker. It maps a download id to the list of
  progress records reported so far. It provides the status summary with its counts and
  five-way overall status, and cancellation.
- `extension_popup.dfy` — the popup:
  - first-occurrence de-duplication of detected videos;
  - "copy all" (newline-joined sources);
  - the badge colour of each video kind.
- `desktop_app.dfy` — the desktop window:
  - expanding and collapsing lessons;
  - generating "Lesson 1" … "Lesson n" for a new project;
  - the lesson-count field;
  - adding lessons and URLs to the selected project;
  - URL input trimming;
  - the Download button's enablement;
  - the rule that ends progress polling.

The project follows the code. The only thing `packages/extension/src/background.ts` does
is set the badge text when the page reports videos. It has no recording session, no tab or
network observer and no stream classifier, so none of those appear here.

Abstractions:

- A UUID is a natural number. `uuid4()` is the store's counter `nextId`, and
  `ProjectStore.Valid()` says every id in use is below it, so each issued id is unused.
- `datetime.now()` is a parameter `now: Clock`.
- What yt-dlp does for one URL is a `Transfer`: the progress-hook calls it makes, then a
  normal return or an exception. `DownloadProject` takes one `Transfer` per job.
- The progress callback is the sequence `reported` of records it is handed.
- The JSON files are the store's map. Reading a project, changing it and writing it back is
  one update of that map.
- The desktop window's REST calls act directly on a `ProjectStore`.

## Model

| member | source | states |
|---|---|---|
| Models.ParseStatus | packages/backend/models.py:13-19 | a string reads back as a status only if it is that status's serialised value |
| Models.StatusValues | packages/backend/models.py:13-19 | there are exactly five statuses, and each one's value reads back as itself |
| Models.NewLessonUrl | packages/backend/models.py:22-29 | a new URL is part 1 unless given, pending, with no filename and no error |
| Models.NewLesson | packages/backend/models.py:32-39 | a new lesson has no URLs and is created and updated at the current clock |
| Models.NewProject | packages/backend/models.py:42-50 | a new project has no lessons and no description unless one is given |
| Strings.NatStrRoundTrip | packages/desktop/src/App.tsx:100 | the decimal text of a number reads back as that number |
| Strings.NatStrInjective | packages/desktop/src/App.tsx:100 | different numbers have different decimal texts |
| Strings.IntStrInjective | packages/backend/services/download_service.py:114 | different integers, negatives included, render differently |
| Strings.SplitJoin | packages/extension/src/App.tsx:45 | splitting a join at the separator gives the parts back when no part contains it |
| Strings.JoinLength | packages/extension/src/App.tsx:45 | no part is longer than the joined text |
| Strings.JoinEmpty | packages/extension/src/App.tsx:45-46 | a join is empty exactly for no parts or one empty part |
| Strings.Trim | packages/desktop/src/App.tsx:473 | trimming never lengthens the text |
| Strings.TrimSlice | packages/desktop/src/App.tsx:473 | the trimmed text is the slice between the leading and the trailing white space, and it starts and ends with a non-space character |
| Strings.TrimProperties | packages/desktop/src/App.tsx:473 | the result is a slice of the input with only white space cut off both ends, and it is empty exactly when the input is all white space |
| Strings.TrimIdempotent | packages/desktop/src/App.tsx:473-474 | trimming a trimmed string changes nothing |
| ProjectService.RemoveByIdMembers | packages/backend/services/project_service.py:133 | the comprehension keeps exactly the elements whose id differs |
| ProjectService.RemoveByIdAppend | packages/backend/services/project_service.py:133 | the comprehension keeps the original order |
| ProjectService.RemoveByIdShorter | packages/backend/services/project_service.py:133-134 | the list gets shorter if and only if some element has the id |
| ProjectService.FreshIdUnused | packages/backend/models.py:24 | an id not yet issued occurs nowhere in a project |
| ProjectService.FirstIndex | packages/backend/services/project_service.py:114-115 | the first position whose element carries the id, or past the end when none does; `FirstLesson` searches lessons with it and `DownloadsRouter.IndexOfUrl` progress records |
| ProjectService.FirstLessonWithUrl | packages/backend/services/project_service.py:164-168 | the first lesson with the lesson id that holds the URL id, or past the end |
| ProjectService.ProjectUpdateFields | packages/backend/services/project_service.py:69-85 | `ApplyProjectUpdate`, the fields `update_project` writes: only the non-None fields and the update time change, an empty update only moves the clock, and re-applying is idempotent |
| ProjectService.LessonUpdateFields | packages/backend/services/project_service.py:116-121 | `ApplyLessonUpdate`, the fields `update_lesson` writes: only title and order can change; id, URLs and creation time stay; re-applying is idempotent |
| ProjectService.InsertionPoint | packages/backend/services/project_service.py:51 | newer projects go in front of the insertion point, older ones behind it |
| ProjectService.InsertNewestFirst | packages/backend/services/project_service.py:51 | placing a project in the newest-first list adds exactly one entry |
| ProjectService.InsertKeepsOrder | packages/backend/services/project_service.py:51 | placing a project keeps the list ordered newest first |
| ProjectService.InsertKeepsDistinct | packages/backend/services/project_service.py:51 | placing a project with a new id keeps ids distinct |
| ProjectService.InsertKeepsInvariants | packages/backend/services/project_service.py:51 | inserting keeps the list newest first, adds exactly that project and keeps ids distinct |
| ProjectService.FirstIndexIsFirstMatch | packages/backend/routers/downloads.py:34-37 | a loop that stops at the first element with the id (the lesson searches and the enumerate loop) finds `FirstIndex` |
| ProjectService.FirstLessonIsFirstMatchWithUrl | packages/backend/services/project_service.py:164-168 | a search that stops at the first lesson holding the URL finds `FirstLessonWithUrl` |
| ProjectService.ProjectStore.constructor | packages/backend/services/project_service.py:19-20 | the store starts with no projects |
| ProjectService.ProjectStore.NextIdFresh | packages/backend/models.py:24 | the next id to be issued is used by no saved project |
| ProjectService.ProjectStore.FreshId | packages/backend/models.py:24 | issues an id no saved project uses and advances the supply |
| ProjectService.ProjectStore.GetProject | packages/backend/services/project_service.py:53-55 | the saved project with that id, or None |
| ProjectService.ProjectStore.ListProjects | packages/backend/services/project_service.py:41-51 | every saved project exactly once, newest first |
| ProjectService.ProjectStore.CreateProject | packages/backend/services/project_service.py:57-67 | a new project with a fresh id and no lessons is added; nothing else changes |
| ProjectService.ProjectStore.UpdateProject | packages/backend/services/project_service.py:69-85 | None for a missing project; otherwise exactly the non-None fields are overwritten and the project is saved |
| ProjectService.ProjectStore.DeleteProject | packages/backend/services/project_service.py:87-93 | true exactly when the project existed; it is removed and nothing else changes |
| ProjectService.ProjectStore.AddLesson | packages/backend/services/project_service.py:95-106 | None and no change for a missing project; otherwise a fresh lesson is appended last, with the given order whenever one is given (0 included) and else the lesson count plus one |
| ProjectService.ProjectStore.IndexOfLesson | packages/backend/services/project_service.py:114-115 | the loop finds the first lesson with the id |
| ProjectService.ProjectStore.UpdateLesson | packages/backend/services/project_service.py:108-124 | None for a missing project or lesson; otherwise only the first matching lesson changes, in its non-None fields |
| ProjectService.ProjectStore.DeleteLesson | packages/backend/services/project_service.py:126-139 | true exactly when a lesson had the id; then every such lesson is removed, the rest keep their order, and otherwise nothing is saved |
| ProjectService.ProjectStore.AddUrl | packages/backend/services/project_service.py:141-156 | None for a missing project or lesson; otherwise a fresh URL is appended to the first matching lesson, numbered by the given part unless it is None or 0, else the URL count plus one |
| ProjectService.ProjectStore.DeleteUrl | packages/backend/services/project_service.py:158-173 | true exactly when a lesson with the id holds the URL; then that URL is removed from the first such lesson and nothing else changes |
| DownloadService.CreateYtDlpOpts | packages/backend/services/download_service.py:23-38 | the fixed options, `outtmpl` is the output path, and `progress_hooks` is present exactly when a hook is given |
| DownloadService.CountHandled | packages/backend/services/download_service.py:59-75 | the number of hook calls the hook reacts to: never more than are made, and zero exactly when no call says "downloading" or "finished" |
| DownloadService.HookStateMeaning | packages/backend/services/download_service.py:49-75 | the hook's record keeps its ids and has no error; it is COMPLETED exactly when some call said "finished" and DOWNLOADING otherwise; its filename is the last handled call's |
| DownloadService.HookReportsLength | packages/backend/services/download_service.py:59-75 | one report per handled hook call |
| DownloadService.HookReportsComplete | packages/backend/services/download_service.py:59-75 | every handled call reports the record as it stands right after that call |
| DownloadService.HookReportsSound | packages/backend/services/download_service.py:59-75 | nothing else is reported |
| DownloadService.HookReportMeaning | packages/backend/services/download_service.py:59-75 | a report carries its own call's filename and no error; it is COMPLETED exactly when a "finished" call came at or before it, so the report of a "finished" call is COMPLETED and a report before any "finished" call is DOWNLOADING |
| DownloadService.HookReportsStayCompleted | packages/backend/services/download_service.py:70-75 | once a report is COMPLETED every later report is, and so is the hook's record |
| DownloadService.FinalStatus | packages/backend/services/download_service.py:87-94 | a download ends completed or failed |
| DownloadService.UrlResultMeaning | packages/backend/services/download_service.py:50-96 | the record `download_url` returns keeps the URL's ids, is COMPLETED on return and FAILED on an exception, carries the exception's text exactly when one was raised, and names the last handled hook call's file |
| DownloadService.JobReportsMeaning | packages/backend/services/download_service.py:57-94 | every record handed to the callback during one URL's download names that URL and its lesson; there is one per handled hook call, plus the returned FAILED record, last, when yt-dlp raised |
| DownloadService.HookPrefixStep | packages/backend/services/download_service.py:57-75 | each hook call moves the record by one step and reports it exactly when the call is handled |
| DownloadService.DownloadUrl | packages/backend/services/download_service.py:40-96 | builds the yt-dlp options with the hook registered; the returned record is `UrlResult` (final status, the exception's text, the last handled file); the callback receives exactly `JobReports`, the hook's reports plus the failed record last on an exception, and nothing without a callback |
| DownloadService.OutputFilename | packages/backend/services/download_service.py:113-116 | the file name starts with the lesson title, ends in ".%(ext)s", and carries " part " after the title when the lesson has several URLs |
| DownloadService.JoinPath | packages/backend/services/download_service.py:118 | the path starts with the directory and ends with the file name |
| DownloadService.JoinPathInjective | packages/backend/services/download_service.py:118 | different file names in one directory give different paths |
| DownloadService.DistinctPartsDistinctFiles | packages/backend/services/download_service.py:113-118 | in a lesson with several URLs, different part numbers give different output paths |
| DownloadService.LessonJobs | packages/backend/services/download_service.py:107-127 | jobs exist only for a lesson id the project has, and every job is tagged with that lesson id |
| DownloadService.LessonJobsShape | packages/backend/services/download_service.py:107-127 | no jobs for an unknown lesson; otherwise one job per URL of the first matching lesson, in URL order |
| DownloadService.ListedLessonsAppend | packages/backend/services/download_service.py:142 | the selection keeps project order |
| DownloadService.ListedLessonsMembers | packages/backend/services/download_service.py:142 | the selection holds exactly the listed lessons and is never longer than the project's list |
| DownloadService.SelectLessons | packages/backend/services/download_service.py:140-142 | the selection is never longer than the project's lessons, holds only its lessons, and with a non-empty id list only listed ones |
| DownloadService.ListedLessonsIdSet | packages/backend/services/download_service.py:142 | repeating an id in the request does not repeat a lesson |
| DownloadService.FlatMapAppend | packages/backend/services/download_service.py:144-150 | results of consecutive lessons concatenate in order |
| DownloadService.AllLessonsJobCount | packages/backend/services/download_service.py:140-151 | with distinct lesson ids, downloading all lessons runs one job per URL of the project |
| DownloadService.SuffixJobCount | packages/backend/services/download_service.py:144-150 | the job count of the remaining lessons is their URL count |
| DownloadService.AllResultsMatch | packages/backend/services/download_service.py:111-127 | the results of running jobs in order are one record per job, in job order, each the record `download_url` returns for that job |
| DownloadService.LessonJobAt | packages/backend/services/download_service.py:107-118 | a found lesson has one job per URL, built from that URL's part number and the lesson's title and save location |
| DownloadService.AllReportsFrom | packages/backend/services/download_service.py:98-152 | every record the callback receives while a lesson or project downloads names one of its jobs' URLs |
| DownloadService.FlatMapPrefix | packages/backend/services/download_service.py:144-150 | one more lesson (or URL) appends its jobs (or reports) after those before it |
| DownloadService.LessonStep | packages/backend/services/download_service.py:111-127 | downloading one more URL appends that URL's returned record to the results and its reports to the reports |
| DownloadService.ProjectStep | packages/backend/services/download_service.py:144-150 | downloading one more lesson appends that lesson's results and reports |
| DownloadService.DownloadLesson | packages/backend/services/download_service.py:98-129 | one result per URL of the lesson, in URL order, each the record `download_url` returns for it (ids, final status, error, filename); the callback receives every URL's reports in URL order (`AllReports`), nothing without a callback; both are empty for an unknown lesson |
| DownloadService.DownloadProject | packages/backend/services/download_service.py:131-152 | None or an empty list selects all lessons, otherwise the listed ones in project order; the results are each job's returned record and the reports each job's reports, concatenated lesson by lesson in that order |
| DownloadsRouter.Upsert | packages/backend/routers/downloads.py:34-38 | the report lands in the list, which grows by at most one |
| DownloadsRouter.UpsertProperties | packages/backend/routers/downloads.py:32-38 | a report grows the list by at most one, and by one exactly when its URL is new; it lands in the list, other URLs' records stay in place, and URL ids stay unique |
| DownloadsRouter.UpsertAllProperties | packages/backend/routers/downloads.py:32-38 | after any sequence of reports URL ids are unique and the list grew by at most one per report |
| DownloadsRouter.CountsPartition | packages/backend/routers/downloads.py:66-69 | the five status counts add up to the total |
| DownloadsRouter.CountsBounded | packages/backend/routers/downloads.py:66-69 | completed + failed + downloading never exceeds the total |
| DownloadsRouter.CountAll | packages/backend/routers/downloads.py:67-69 | a count equals the total exactly when every record has that status |
| DownloadsRouter.CountNone | packages/backend/routers/downloads.py:67-69 | a count is zero exactly when no record has that status |
| DownloadsRouter.Summarize | packages/backend/routers/downloads.py:63-80 | the report echoes the id and the records, its counts never exceed the total, and it is pending exactly when there are no records |
| DownloadsRouter.SummarizeMeaning | packages/backend/routers/downloads.py:63-90 | the precedence in both directions: pending iff no records, downloading iff one is downloading, completed or failed iff all are, partial otherwise |
| DownloadsRouter.DownloadTracker.constructor | packages/backend/routers/downloads.py:18 | the tracker starts empty |
| DownloadsRouter.DownloadTracker.StartDownload | packages/backend/routers/downloads.py:21-54 | 404 for a missing project; otherwise the project id is the download id and its record list is reset to empty |
| DownloadsRouter.DownloadTracker.ProgressCallback | packages/backend/routers/downloads.py:32-38 | fails for an untracked download and changes nothing; otherwise the first record of the URL is replaced in place or the report appended, keeping URL ids unique |
| DownloadsRouter.DownloadTracker.GetDownloadStatus | packages/backend/routers/downloads.py:57-90 | 404 exactly for an untracked download; otherwise the summary of its records |
| DownloadsRouter.DownloadTracker.CancelDownload | packages/backend/routers/downloads.py:93-98 | the download is forgotten if tracked, and the call always succeeds |
| ExtensionPopup.FindIndex | packages/extension/src/App.tsx:24 | a position found holds the source; otherwise the answer is -1 |
| ExtensionPopup.FindIndexFirst | packages/extension/src/App.tsx:24 | when the source occurs, the answer is a position no later than any occurrence, so -1 means there is none |
| ExtensionPopup.FilterFirstKept | packages/extension/src/App.tsx:23-25 | every kept video is the first occurrence of its source |
| ExtensionPopup.FilterFirstOrdered | packages/extension/src/App.tsx:23-25 | kept videos follow the order of their first occurrences |
| ExtensionPopup.FilterFirstCovers | packages/extension/src/App.tsx:23-25 | the first occurrence of every source is kept |
| ExtensionPopup.FilterFirstLength | packages/extension/src/App.tsx:23-25 | the filter never lengthens the list |
| ExtensionPopup.Dedupe | packages/extension/src/App.tsx:23-25 | the result is never longer than the input and holds only its videos |
| ExtensionPopup.DedupeProperties | packages/extension/src/App.tsx:23-25 | the result has distinct sources, is the order-preserving list of first occurrences, and represents every source of the input |
| ExtensionPopup.FilterFirstPrefix | packages/extension/src/App.tsx:23-25 | on distinct sources the filter keeps every position |
| ExtensionPopup.DedupeDistinctUnchanged | packages/extension/src/App.tsx:23-25 | a list with distinct sources is returned unchanged |
| ExtensionPopup.DedupeIdempotent | packages/extension/src/App.tsx:23-25 | de-duplicating twice equals de-duplicating once |
| ExtensionPopup.AllUrls | packages/extension/src/App.tsx:45 | the copied text is empty for no videos, is the one source for a single video, and is never shorter than any source |
| ExtensionPopup.AllUrlsEmpty | packages/extension/src/App.tsx:45-46 | the copied text is empty exactly for no videos, or one video with an empty source |
| ExtensionPopup.AllUrlsRecoverable | packages/extension/src/App.tsx:45 | splitting the copied text at line breaks gives every source back in order |
| ExtensionPopup.GetTypeColor | packages/extension/src/App.tsx:52-57 | iframe is purple, stream is green, and anything else is blue, each in both directions |
| ExtensionPopup.PopupState.constructor | packages/extension/src/App.tsx:10-12 | no videos, loading, no status |
| ExtensionPopup.PopupState.HandleResponse | packages/extension/src/App.tsx:20-28 | a video list replaces the shown list by its de-duplicated form, an answer without one leaves it, and loading always ends |
| ExtensionPopup.PopupState.CopyToClipboard | packages/extension/src/App.tsx:34-42 | a successful write copies the text and says "Copied!"; a rejected one says "Failed to copy." |
| ExtensionPopup.PopupState.CopyAll | packages/extension/src/App.tsx:44-50 | with non-empty text, copies the newline-joined sources and then says "All URLs copied!"; with empty text nothing changes |
| DesktopApp.Toggle | packages/desktop/src/App.tsx:208-216 | the clicked id flips membership and no other id changes |
| DesktopApp.ToggleTwice | packages/desktop/src/App.tsx:208-216 | two clicks restore the set |
| DesktopApp.LessonTree.constructor | packages/desktop/src/App.tsx:62 | nothing is expanded at first |
| DesktopApp.LessonTree.ToggleLesson | packages/desktop/src/App.tsx:208-216 | the expanded set becomes its toggle |
| DesktopApp.LessonTitleInjective | packages/desktop/src/App.tsx:100 | generated titles of different numbers differ |
| DesktopApp.GeneratedStep | packages/desktop/src/App.tsx:99-101 | adding "Lesson i" with order i after lessons 1 … i-1 gives lessons 1 … i |
| DesktopApp.GeneratedLessonsProperties | packages/desktop/src/App.tsx:99-101 | generated lessons have distinct titles and orders equal to their positions |
| DesktopApp.HandleCreateProject | packages/desktop/src/App.tsx:88-116 | nothing happens without a name or location; otherwise one new project receives "Lesson 1" … "Lesson n" with orders 1 … n and other projects are untouched |
| DesktopApp.DigitPrefix | packages/desktop/src/App.tsx:439 | the longest run of leading digits |
| DesktopApp.ClampLessonCount | packages/desktop/src/App.tsx:439 | the count is at least 1; a parsed value of at least 1 is kept, and anything else (NaN included) becomes 1 |
| DesktopApp.DigitPrefixAll | packages/desktop/src/App.tsx:439 | an all-digit text is read to its end |
| DesktopApp.ParseIntNeedsDigit | packages/desktop/src/App.tsx:439 | `parseInt` reads a number only when the text holds a digit |
| DesktopApp.ParseIntSkipsSpace | packages/desktop/src/App.tsx:439 | leading white space does not change what `parseInt` reads |
| DesktopApp.ParseIntDigits | packages/desktop/src/App.tsx:439 | a run of digits reads as its decimal value, and after "-" as its negation |
| DesktopApp.ClampLessonCountRoundTrip | packages/desktop/src/App.tsx:439 | a positive count typed in decimal is kept as typed |
| DesktopApp.HandleAddLesson | packages/desktop/src/App.tsx:129-142 | needs a selected project and a title; the order is one past the shown lesson count, so with a current view the new lesson's order is its position |
| DesktopApp.HandleAddUrl | packages/desktop/src/App.tsx:155-164 | needs a selected project and a URL; nothing changes when the project or the lesson is missing; otherwise the URL, numbered by its position, is appended to the first lesson with the id and nothing else in the store changes |
| DesktopApp.UrlInput.constructor | packages/desktop/src/App.tsx:470 | the field starts empty |
| DesktopApp.UrlInput.HandleSubmit | packages/desktop/src/App.tsx:472-477 | submits the trimmed, non-empty text and clears the field; white-space-only text is rejected and kept |
| DesktopApp.NoUrlsIffZero | packages/desktop/src/App.tsx:297 | every lesson is empty exactly when the project's URL count is zero |
| DesktopApp.DownloadEnabledMeansWork | packages/desktop/src/App.tsx:297 | `DownloadDisabled`, the button's `disabled` test: the button is enabled exactly when not downloading and some lesson has a URL; no lessons disables it; enabled means at least one download job |
| DesktopApp.PollAgainMeaning | packages/desktop/src/App.tsx:189-194 | `PollAgain`, the poll's decision as written: polling continues exactly on "pending", "downloading" and "partial" |
| DesktopApp.PollNeverStopsAfterMixedOutcome | packages/desktop/src/App.tsx:189-194 | any completed record next to a failed one reports "partial", so polling never stops |
| DesktopApp.MixedProjectRunPollsForever | packages/desktop/src/App.tsx:189-194 | when `download_project`'s first URL finishes and its second raises, the tracker built from everything the callback received answers "partial", so polling never stops |
| DesktopApp.PollAgainCorrectedStops | packages/desktop/src/App.tsx:189-194 | with "partial" also ending the poll, it stops once every record is finished and continues while one is downloading |

## Left out

- File storage is not modelled: JSON serialisation, `glob`, directory creation and the
  skipping of unreadable files in `list_projects`. The store is a map, so every saved
  project is listed.
- ProjectService.ProjectStore.ListProjects: the order of projects with equal creation
  times is not fixed. `sorted` is stable and the file order comes from `glob`, which the
  model does not know.
- yt-dlp itself, `run_in_executor`, `asyncio.create_task` and FastAPI's background tasks
  are not modelled. A download is the `Transfer` given for its job, and the background
  download that `start_download` launches is not connected to the tracker.
- Progress records carry no percentage, speed or ETA (floats and free-form strings). The
  hook's `total_bytes` arithmetic is left out with them.
- DownloadService.DownloadUrl: the callback is handed a snapshot of the record each time.
  In Python it is handed the same object every time. The tracker therefore keeps a
  reference that later hook calls and the final status assignment still change. The model
  does not capture that aliasing.
- DownloadService.DownloadLesson: yt-dlp's behaviour is a function `transfers` of the job.
  Two identical jobs (a lesson id repeated within a project) therefore get the same
  outcome, while two real yt-dlp runs could differ.
- A successful download calls the callback only from the hook. The final
  `status = COMPLETED` assignment at the end of `download_url` is modelled as the returned
  record only.
- DownloadService.JoinPath: `Path(directory) / name` is a plain join with "/". It has no
  normalisation, and an absolute `name` does not replace the directory.
- DesktopApp.ParseInt: the `0x` prefix that `parseInt` reads as hexadecimal, and `-0`, are
  not modelled. The field is a number input, and the clamp maps both to 1 anyway.
- HTTP and transport are not modelled: the REST client in `packages/desktop/src/api.ts`,
  the project routes that turn None/False into 404, application wiring and CORS,
  configuration (only the default format string is kept), Electron IPC, and the extension
  manifest.
- Browser effects are not modelled: DOM scanning in the content script, `chrome.tabs`
  messaging, the badge in `packages/extension/src/background.ts`, the two-second status
  reset timer, and JSX rendering.
- Desktop window state is not modelled: `loadProjects`, error banners, form resets,
  project selection after a reload, `handleDeleteProject`/`handleDeleteLesson`/
  `handleDeleteURL` (direct pass-throughs to the store's deletes), and the poll's
  one-second timer. The poll is modelled as its decision only.
- Timestamps are the parameter `now`: each operation sets `updated_at` (and `created_at`
  for new records) to it.

## Findings

| source | as written | input that shows it | evidently intended | confidence | as-written member | corrected member |
|---|---|---|---|---|---|---|
| packages/desktop/src/App.tsx:189-194 | polling continues unless the overall status is "completed" or "failed" | a download that ends with one URL completed and one failed: the status endpoint answers "partial" from then on, so the window polls every second forever and the Download button stays disabled | stop polling on "partial" as well, like the other outcomes of a finished download | medium, not executed | DesktopApp.MixedProjectRunPollsForever | DesktopApp.PollAgainCorrectedStops |
