/**
 * The records of the backend: projects, their ordered lessons, each lesson's ordered
 * URLs, the request bodies of the REST API and the progress record of one download.
 * UUIDs are natural numbers and `datetime` values are opaque clock readings.
 */
module Models {
  import opened Wrappers

  /** A UUID. Fresh ones come from the store's id supply. */
  type Id = nat

  /** A `datetime.now()` reading; only its order is ever used. */
  type Clock = int

  /** The five states of one URL's download. */
  datatype DownloadStatus = Pending | Downloading | Completed | Failed | Paused {
    /** The string value the enum serialises to. */
    function Value(): string {
      match this
      case Pending => "pending"
      case Downloading => "downloading"
      case Completed => "completed"
      case Failed => "failed"
      case Paused => "paused"
    }
  }

  const AllStatuses: set<DownloadStatus> := {Pending, Downloading, Completed, Failed, Paused}

  /** Reading a status back from its serialised value; anything else is rejected. */
  function ParseStatus(s: string): (r: Option<DownloadStatus>)
    ensures r.Some? ==> r.value.Value() == s
  {
    if s == "pending" then Some(Pending)
    else if s == "downloading" then Some(Downloading)
    else if s == "completed" then Some(Completed)
    else if s == "failed" then Some(Failed)
    else if s == "paused" then Some(Paused)
    else None
  }

  /** Every status serialises to a value that parses back to it, and there are exactly five. */
  lemma StatusValues(st: DownloadStatus)
    ensures ParseStatus(st.Value()) == Some(st)
    ensures st in AllStatuses && |AllStatuses| == 5
  {
    assert |{Pending, Downloading, Completed, Failed}| == 4;
  }

  /** A single URL within a lesson. */
  datatype LessonUrl = LessonUrl(
    id: Id,
    url: string,
    partNumber: int,
    status: DownloadStatus,
    filename: Option<string>,
    error: Option<string>)

  /** A lesson within a project. */
  datatype Lesson = Lesson(
    id: Id,
    title: string,
    order: int,
    urls: seq<LessonUrl>,
    createdAt: Clock,
    updatedAt: Clock)

  /** A download project containing lessons. */
  datatype Project = Project(
    id: Id,
    name: string,
    description: Option<string>,
    saveLocation: string,
    lessons: seq<Lesson>,
    createdAt: Clock,
    updatedAt: Clock)

  /** `LessonURL(url=..., part_number=...)` with the field defaults filled in. */
  function NewLessonUrl(id: Id, url: string, partNumber: int := 1): (u: LessonUrl)
    ensures u.id == id && u.url == url && u.partNumber == partNumber
    ensures u.status == Pending && u.filename == None && u.error == None
  {
    LessonUrl(id, url, partNumber, Pending, None, None)
  }

  /** `Lesson(title=..., order=...)`: no URLs yet, both timestamps the current clock. */
  function NewLesson(id: Id, title: string, order: int, now: Clock): (l: Lesson)
    ensures l.id == id && l.title == title && l.order == order
    ensures l.urls == [] && l.createdAt == now && l.updatedAt == now
  {
    Lesson(id, title, order, [], now, now)
  }

  /** `Project(name=..., save_location=...)`: no lessons yet, no description unless given. */
  function NewProject(id: Id, name: string, saveLocation: string, now: Clock,
                      description: Option<string> := None): (p: Project)
    ensures p.id == id && p.name == name && p.saveLocation == saveLocation
    ensures p.description == description && p.lessons == []
    ensures p.createdAt == now && p.updatedAt == now
  {
    Project(id, name, description, saveLocation, [], now, now)
  }

  // Request bodies. In the update records every field is optional and None means
  // "leave unchanged".

  datatype ProjectCreate = ProjectCreate(name: string, saveLocation: string, description: Option<string> := None)

  datatype ProjectUpdate = ProjectUpdate(
    name: Option<string> := None,
    description: Option<string> := None,
    saveLocation: Option<string> := None)

  datatype LessonCreate = LessonCreate(title: string, order: Option<int> := None)

  datatype LessonUpdate = LessonUpdate(title: Option<string> := None, order: Option<int> := None)

  datatype UrlAdd = UrlAdd(url: string, partNumber: Option<int> := None)

  /** A download request; `lessonIds == None` selects every lesson of the project. */
  datatype DownloadRequest = DownloadRequest(projectId: Id, lessonIds: Option<seq<Id>> := None)

  /** Progress of one URL's download, without the float percentage, speed and ETA. */
  datatype DownloadProgress = DownloadProgress(
    lessonId: Id,
    urlId: Id,
    status: DownloadStatus,
    filename: Option<string> := None,
    error: Option<string> := None)
}
