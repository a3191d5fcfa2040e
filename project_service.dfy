/**
 * The project store behind the REST API: projects keyed by id, each with an ordered
 * list of lessons, each lesson with an ordered list of URLs. The JSON files of the
 * original are an id -> Project map held by `ProjectStore`; loading a project,
 * changing it and saving it back is one update of that map.
 */
module ProjectService {
  import opened Wrappers
  import opened Models

  /** The list comprehension `[x for x in xs if idOf(x) != id]`. */
  function RemoveById<T>(xs: seq<T>, idOf: T -> Id, id: Id): seq<T> {
    if xs == [] then []
    else (if idOf(xs[0]) != id then [xs[0]] else []) + RemoveById(xs[1..], idOf, id)
  }

  /** What survives the comprehension: exactly the elements whose id differs. */
  lemma {:induction false} RemoveByIdMembers<T>(xs: seq<T>, idOf: T -> Id, id: Id)
    ensures forall x :: x in RemoveById(xs, idOf, id) <==> x in xs && idOf(x) != id
  {
    if xs != [] {
      RemoveByIdMembers(xs[1..], idOf, id);
      assert xs == [xs[0]] + xs[1..];
    }
  }

  /** The comprehension keeps the original order: it distributes over concatenation. */
  lemma {:induction false} RemoveByIdAppend<T>(a: seq<T>, b: seq<T>, idOf: T -> Id, id: Id)
    ensures RemoveById(a + b, idOf, id) == RemoveById(a, idOf, id) + RemoveById(b, idOf, id)
  {
    if a != [] {
      RemoveByIdAppend(a[1..], b, idOf, id);
      assert (a + b)[1..] == a[1..] + b;
    } else {
      assert a + b == b;
    }
  }

  /** The list gets shorter exactly when some element carries the id. */
  lemma {:induction false} RemoveByIdShorter<T>(xs: seq<T>, idOf: T -> Id, id: Id)
    ensures |RemoveById(xs, idOf, id)| <= |xs|
    ensures |RemoveById(xs, idOf, id)| < |xs| <==> exists i :: 0 <= i < |xs| && idOf(xs[i]) == id
  {
    if xs != [] {
      RemoveByIdShorter(xs[1..], idOf, id);
      if exists i :: 0 <= i < |xs[1..]| && idOf(xs[1..][i]) == id {
        var i :| 0 <= i < |xs[1..]| && idOf(xs[1..][i]) == id;
        assert idOf(xs[i + 1]) == id;
      }
      if exists i :: 0 <= i < |xs| && idOf(xs[i]) == id {
        var i :| 0 <= i < |xs| && idOf(xs[i]) == id;
        if i > 0 { assert idOf(xs[1..][i - 1]) == id; }
      }
    }
  }

  function LessonIdOf(l: Lesson): Id { l.id }

  function UrlIdOf(u: LessonUrl): Id { u.id }

  /** Whether the id occurs anywhere in the project: as its own id, a lesson's or a URL's. */
  ghost predicate UsesId(p: Project, id: Id) {
    p.id == id
    || (exists l :: l in p.lessons && l.id == id)
    || (exists l, u :: l in p.lessons && u in l.urls && u.id == id)
  }

  ghost predicate LessonIdsBelow(l: Lesson, n: nat) {
    l.id < n && forall u :: u in l.urls ==> u.id < n
  }

  /** Every id used in the project was issued before the supply reached `n`. */
  ghost predicate IdsBelow(p: Project, n: nat) {
    p.id < n && forall l :: l in p.lessons ==> LessonIdsBelow(l, n)
  }

  /** An id the supply has not issued yet occurs nowhere in the project. */
  lemma FreshIdUnused(p: Project, n: nat, id: Id)
    requires IdsBelow(p, n) && id >= n
    ensures !UsesId(p, id)
  {
  }

  /** Index of the first element carrying the id (a search that stops at the first match), or |xs|. */
  function FirstIndex<T>(xs: seq<T>, idOf: T -> Id, id: Id): (i: nat)
    ensures i <= |xs|
    ensures i < |xs| ==> idOf(xs[i]) == id
    ensures forall k :: 0 <= k < i ==> idOf(xs[k]) != id
  {
    if xs == [] then 0
    else if idOf(xs[0]) == id then 0
    else 1 + FirstIndex(xs[1..], idOf, id)
  }

  /** A search that stops at the first match returns the index `FirstIndex` names. */
  lemma {:induction false} FirstIndexIsFirstMatch<T>(xs: seq<T>, idOf: T -> Id, id: Id, i: nat)
    requires i <= |xs|
    requires forall k :: 0 <= k < i ==> idOf(xs[k]) != id
    requires i < |xs| ==> idOf(xs[i]) == id
    ensures FirstIndex(xs, idOf, id) == i
  {
    if xs != [] && i > 0 {
      FirstIndexIsFirstMatch(xs[1..], idOf, id, i - 1);
    }
  }

  /** Index of the first lesson with that id (the `for lesson in project.lessons` search), or |lessons|. */
  function FirstLesson(lessons: seq<Lesson>, id: Id): nat {
    FirstIndex(lessons, LessonIdOf, id)
  }

  predicate HasUrl(urls: seq<LessonUrl>, id: Id) {
    exists j :: 0 <= j < |urls| && urls[j].id == id
  }

  /** Index of the first lesson with id `lessonId` that holds a URL with id `urlId`, or |lessons|. */
  function FirstLessonWithUrl(lessons: seq<Lesson>, lessonId: Id, urlId: Id): (i: nat)
    ensures i <= |lessons|
    ensures i < |lessons| ==> lessons[i].id == lessonId && HasUrl(lessons[i].urls, urlId)
    ensures forall k :: 0 <= k < i ==> !(lessons[k].id == lessonId && HasUrl(lessons[k].urls, urlId))
  {
    if lessons == [] then 0
    else if lessons[0].id == lessonId && HasUrl(lessons[0].urls, urlId) then 0
    else 1 + FirstLessonWithUrl(lessons[1..], lessonId, urlId)
  }

  /** The project after `update_project`: each non-None field overwritten, the clock bumped. */
  function ApplyProjectUpdate(p: Project, data: ProjectUpdate, now: Clock): Project {
    p.(name := data.name.GetOr(p.name),
       description := if data.description.Some? then data.description else p.description,
       saveLocation := data.saveLocation.GetOr(p.saveLocation),
       updatedAt := now)
  }

  /** The lesson after `update_lesson`: each non-None field overwritten, the clock bumped. */
  function ApplyLessonUpdate(l: Lesson, data: LessonUpdate, now: Clock): Lesson {
    l.(title := data.title.GetOr(l.title), order := data.order.GetOr(l.order), updatedAt := now)
  }

  /** Re-applying a project update changes nothing more, and only the named fields move. */
  lemma ProjectUpdateFields(p: Project, data: ProjectUpdate, now: Clock)
    ensures ApplyProjectUpdate(ApplyProjectUpdate(p, data, now), data, now) == ApplyProjectUpdate(p, data, now)
    ensures data == ProjectUpdate() ==> ApplyProjectUpdate(p, data, now) == p.(updatedAt := now)
    ensures var q := ApplyProjectUpdate(p, data, now);
      q.id == p.id && q.lessons == p.lessons && q.createdAt == p.createdAt && q.updatedAt == now
      && (data.name.None? ==> q.name == p.name)
      && (data.description.None? ==> q.description == p.description)
      && (data.saveLocation.None? ==> q.saveLocation == p.saveLocation)
  {
  }

  /** Re-applying a lesson update changes nothing more, and only the named fields move. */
  lemma LessonUpdateFields(l: Lesson, data: LessonUpdate, now: Clock)
    ensures ApplyLessonUpdate(ApplyLessonUpdate(l, data, now), data, now) == ApplyLessonUpdate(l, data, now)
    ensures data == LessonUpdate() ==> ApplyLessonUpdate(l, data, now) == l.(updatedAt := now)
    ensures var m := ApplyLessonUpdate(l, data, now);
      m.id == l.id && m.urls == l.urls && m.createdAt == l.createdAt
  {
  }

  /** Projects ordered by creation time, newest first. */
  predicate NewestFirst(ps: seq<Project>) {
    forall i, j :: 0 <= i < j < |ps| ==> ps[i].createdAt >= ps[j].createdAt
  }

  /** Where a project created at `c` goes in a newest-first list. */
  function InsertionPoint(ps: seq<Project>, c: Clock): (k: nat)
    requires NewestFirst(ps)
    ensures k <= |ps|
    ensures forall i :: 0 <= i < k ==> ps[i].createdAt >= c
    ensures forall i :: k <= i < |ps| ==> ps[i].createdAt < c
  {
    if ps == [] || ps[0].createdAt < c then 0 else 1 + InsertionPoint(ps[1..], c)
  }

  predicate DistinctIds(ps: seq<Project>) {
    forall i, j :: 0 <= i < j < |ps| ==> ps[i].id != ps[j].id
  }

  /** `r` with `p` placed where a newest-first order wants it. */
  function InsertNewestFirst(r: seq<Project>, p: Project): (r': seq<Project>)
    requires NewestFirst(r)
    ensures |r'| == |r| + 1
  {
    var k := InsertionPoint(r, p.createdAt);
    r[..k] + [p] + r[k..]
  }

  lemma InsertKeepsInvariants(r: seq<Project>, p: Project)
    requires NewestFirst(r)
    ensures var r' := InsertNewestFirst(r, p);
      NewestFirst(r')
      && (forall q :: q in r' <==> q in r || q == p)
      && (DistinctIds(r) && (forall i :: 0 <= i < |r| ==> r[i].id != p.id) ==> DistinctIds(r'))
  {
    var k := InsertionPoint(r, p.createdAt);
    assert r == r[..k] + r[k..];
    InsertKeepsOrder(r, p);
    if DistinctIds(r) && (forall i :: 0 <= i < |r| ==> r[i].id != p.id) {
      InsertKeepsDistinct(r, p);
    }
  }

  /** Where each element of `r` lands after the insertion. */
  lemma InsertPositions(r: seq<Project>, p: Project)
    requires NewestFirst(r)
    ensures var k := InsertionPoint(r, p.createdAt);
      var r' := InsertNewestFirst(r, p);
      r'[k] == p
      && (forall i :: 0 <= i < k ==> r'[i] == r[i])
      && (forall i :: k < i < |r'| ==> r'[i] == r[i - 1])
  {
  }

  lemma InsertKeepsOrder(r: seq<Project>, p: Project)
    requires NewestFirst(r)
    ensures NewestFirst(InsertNewestFirst(r, p))
  {
    var k := InsertionPoint(r, p.createdAt);
    var r' := InsertNewestFirst(r, p);
    InsertPositions(r, p);
    forall i, j | 0 <= i < j < |r'|
      ensures r'[i].createdAt >= r'[j].createdAt
    {
      if j < k {
        assert r'[i] == r[i] && r'[j] == r[j];
      } else if j == k {
        assert r'[i] == r[i];
      } else if i < k {
        assert r'[i] == r[i] && r'[j] == r[j - 1];
      } else if i == k {
        assert r'[j] == r[j - 1];
      } else {
        assert r'[i] == r[i - 1] && r'[j] == r[j - 1];
      }
    }
  }

  lemma InsertKeepsDistinct(r: seq<Project>, p: Project)
    requires NewestFirst(r) && DistinctIds(r)
    requires forall i :: 0 <= i < |r| ==> r[i].id != p.id
    ensures DistinctIds(InsertNewestFirst(r, p))
  {
    var k := InsertionPoint(r, p.createdAt);
    var r' := InsertNewestFirst(r, p);
    InsertPositions(r, p);
    forall i, j | 0 <= i < j < |r'|
      ensures r'[i].id != r'[j].id
    {
      if j < k {
        assert r'[i] == r[i] && r'[j] == r[j];
      } else if j == k {
        assert r'[i] == r[i];
      } else if i < k {
        assert r'[i] == r[i] && r'[j] == r[j - 1];
      } else if i == k {
        assert r'[j] == r[j - 1];
      } else {
        assert r'[i] == r[i - 1] && r'[j] == r[j - 1];
      }
    }
  }

  class ProjectStore {
    /** The saved projects, keyed by id (one JSON file each). */
    var projects: map<Id, Project>
    /** The id supply: every id issued so far is below `nextId`. */
    var nextId: nat

    ghost predicate Valid()
      reads this
    {
      forall k :: k in projects ==> projects[k].id == k && IdsBelow(projects[k], nextId)
    }

    /** No id the store hands out next occurs in any saved project. */
    lemma NextIdFresh()
      requires Valid()
      ensures forall k :: k in projects ==> !UsesId(projects[k], nextId)
    {
      forall k | k in projects
        ensures !UsesId(projects[k], nextId)
      {
        FreshIdUnused(projects[k], nextId, nextId);
      }
    }

    constructor ()
      ensures Valid() && projects == map[] && nextId == 0
    {
      projects := map[];
      nextId := 0;
    }

    /** uuid4(): an id no saved project uses. */
    method FreshId() returns (id: Id)
      requires Valid()
      modifies this`nextId
      ensures Valid()
      ensures id == old(nextId) && nextId == id + 1
      ensures forall k :: k in projects ==> !UsesId(projects[k], id)
    {
      NextIdFresh();
      id := nextId;
      nextId := nextId + 1;
      forall k | k in projects
        ensures IdsBelow(projects[k], nextId)
      {
        var p := projects[k];
        assert forall l :: l in p.lessons ==> LessonIdsBelow(l, nextId - 1);
      }
    }

    function GetProject(id: Id): (r: Option<Project>)
      reads this
      ensures r.Some? <==> id in projects
      ensures r.Some? ==> r.value == projects[id]
    {
      if id in projects then Some(projects[id]) else None
    }

    /** Every saved project once, newest first. */
    method ListProjects() returns (r: seq<Project>)
      requires Valid()
      ensures |r| == |projects|
      ensures forall i :: 0 <= i < |r| ==> r[i].id in projects && projects[r[i].id] == r[i]
      ensures forall k :: k in projects ==> projects[k] in r
      ensures DistinctIds(r)
      ensures NewestFirst(r)
    {
      var remaining := projects.Keys;
      r := [];
      while remaining != {}
        invariant remaining <= projects.Keys
        invariant |r| + |remaining| == |projects.Keys|
        invariant forall q :: q in r ==> q.id in projects && projects[q.id] == q && q.id !in remaining
        invariant forall k :: k in projects && k !in remaining ==> projects[k] in r
        invariant DistinctIds(r)
        invariant NewestFirst(r)
        decreases |remaining|
      {
        var id :| id in remaining;
        var p := projects[id];
        assert forall i :: 0 <= i < |r| ==> r[i].id != p.id by {
          assert forall i :: 0 <= i < |r| ==> r[i] in r;
        }
        InsertKeepsInvariants(r, p);
        r := InsertNewestFirst(r, p);
        remaining := remaining - {id};
      }
    }

    method CreateProject(data: ProjectCreate, now: Clock) returns (p: Project)
      requires Valid()
      modifies this
      ensures Valid()
      ensures p == NewProject(old(nextId), data.name, data.saveLocation, now, data.description)
      ensures p.id !in old(projects)
      ensures projects == old(projects)[p.id := p]
    {
      var id := FreshId();
      p := NewProject(id, data.name, data.saveLocation, now, data.description);
      projects := projects[id := p];
    }

    method UpdateProject(id: Id, data: ProjectUpdate, now: Clock) returns (r: Option<Project>)
      requires Valid()
      modifies this
      ensures Valid() && nextId == old(nextId)
      ensures id !in old(projects) ==> r == None && projects == old(projects)
      ensures id in old(projects) ==>
        r == Some(ApplyProjectUpdate(old(projects)[id], data, now))
        && projects == old(projects)[id := r.value]
    {
      if id !in projects {
        return None;
      }
      var project := projects[id];
      if data.name.Some? {
        project := project.(name := data.name.value);
      }
      if data.description.Some? {
        project := project.(description := data.description);
      }
      if data.saveLocation.Some? {
        project := project.(saveLocation := data.saveLocation.value);
      }
      project := project.(updatedAt := now);
      projects := projects[id := project];
      r := Some(project);
    }

    method DeleteProject(id: Id) returns (deleted: bool)
      requires Valid()
      modifies this
      ensures Valid() && nextId == old(nextId)
      ensures deleted == (id in old(projects))
      ensures projects == old(projects) - {id}
    {
      if id !in projects {
        return false;
      }
      projects := projects - {id};
      return true;
    }

    method AddLesson(id: Id, data: LessonCreate, now: Clock) returns (r: Option<Lesson>)
      requires Valid()
      modifies this
      ensures Valid()
      ensures id !in old(projects) ==> r == None && projects == old(projects) && nextId == old(nextId)
      ensures id in old(projects) ==>
        var p := old(projects)[id];
        var order := if data.order.Some? then data.order.value else |p.lessons| + 1;
        r == Some(NewLesson(old(nextId), data.title, order, now))
        && (forall k :: k in old(projects) ==> !UsesId(old(projects)[k], r.value.id))
        && projects == old(projects)[id := p.(lessons := p.lessons + [r.value], updatedAt := now)]
    {
      if id !in projects {
        return None;
      }
      var project := projects[id];
      var order := if data.order.Some? then data.order.value else |project.lessons| + 1;
      var lessonId := FreshId();
      var lesson := NewLesson(lessonId, data.title, order, now);
      project := project.(lessons := project.lessons + [lesson], updatedAt := now);
      projects := projects[id := project];
      r := Some(lesson);
    }

    /** The search loop over a project's lessons. */
    static method IndexOfLesson(lessons: seq<Lesson>, lessonId: Id) returns (i: nat)
      ensures i == FirstLesson(lessons, lessonId)
    {
      i := 0;
      while i < |lessons| && lessons[i].id != lessonId
        invariant i <= |lessons|
        invariant forall k :: 0 <= k < i ==> lessons[k].id != lessonId
      {
        i := i + 1;
      }
      FirstIndexIsFirstMatch(lessons, LessonIdOf, lessonId, i);
    }

    method UpdateLesson(id: Id, lessonId: Id, data: LessonUpdate, now: Clock) returns (r: Option<Lesson>)
      requires Valid()
      modifies this
      ensures Valid() && nextId == old(nextId)
      ensures id !in old(projects) ==> r == None && projects == old(projects)
      ensures id in old(projects) ==>
        var p := old(projects)[id];
        var i := FirstLesson(p.lessons, lessonId);
        if i == |p.lessons| then r == None && projects == old(projects)
        else
          r == Some(ApplyLessonUpdate(p.lessons[i], data, now))
          && projects == old(projects)[id := p.(lessons := p.lessons[i := r.value], updatedAt := now)]
    {
      if id !in projects {
        return None;
      }
      var project := projects[id];
      var i := IndexOfLesson(project.lessons, lessonId);
      if i == |project.lessons| {
        return None;
      }
      var lesson := project.lessons[i];
      if data.title.Some? {
        lesson := lesson.(title := data.title.value);
      }
      if data.order.Some? {
        lesson := lesson.(order := data.order.value);
      }
      lesson := lesson.(updatedAt := now);
      project := project.(lessons := project.lessons[i := lesson], updatedAt := now);
      forall l | l in project.lessons
        ensures LessonIdsBelow(l, nextId)
      {
        if l != lesson {
          assert l in projects[id].lessons;
        } else {
          assert projects[id].lessons[i] in projects[id].lessons;
        }
      }
      projects := projects[id := project];
      r := Some(lesson);
    }

    method DeleteLesson(id: Id, lessonId: Id, now: Clock) returns (deleted: bool)
      requires Valid()
      modifies this
      ensures Valid() && nextId == old(nextId)
      ensures deleted <==> id in old(projects) && exists i :: 0 <= i < |old(projects)[id].lessons| && old(projects)[id].lessons[i].id == lessonId
      ensures projects ==
        if deleted then
          var p := old(projects)[id];
          old(projects)[id := p.(lessons := RemoveById(p.lessons, LessonIdOf, lessonId), updatedAt := now)]
        else old(projects)
    {
      if id !in projects {
        return false;
      }
      var project := projects[id];
      var originalLen := |project.lessons|;
      project := project.(lessons := RemoveById(project.lessons, LessonIdOf, lessonId));
      RemoveByIdShorter(projects[id].lessons, LessonIdOf, lessonId);
      if |project.lessons| < originalLen {
        RemoveByIdMembers(projects[id].lessons, LessonIdOf, lessonId);
        project := project.(updatedAt := now);
        projects := projects[id := project];
        return true;
      }
      return false;
    }

    method AddUrl(id: Id, lessonId: Id, data: UrlAdd, now: Clock) returns (r: Option<LessonUrl>)
      requires Valid()
      modifies this
      ensures Valid()
      ensures id !in old(projects) ==> r == None && projects == old(projects) && nextId == old(nextId)
      ensures id in old(projects) ==>
        var p := old(projects)[id];
        var i := FirstLesson(p.lessons, lessonId);
        if i == |p.lessons| then r == None && projects == old(projects) && nextId == old(nextId)
        else
          var l := p.lessons[i];
          var part := if data.partNumber.Some? && data.partNumber.value != 0 then data.partNumber.value else |l.urls| + 1;
          r == Some(NewLessonUrl(old(nextId), data.url, part))
          && (forall k :: k in old(projects) ==> !UsesId(old(projects)[k], r.value.id))
          && projects == old(projects)[id := p.(lessons := p.lessons[i := l.(urls := l.urls + [r.value], updatedAt := now)], updatedAt := now)]
    {
      if id !in projects {
        return None;
      }
      var project := projects[id];
      var i := IndexOfLesson(project.lessons, lessonId);
      if i == |project.lessons| {
        return None;
      }
      var lesson := project.lessons[i];
      // `data.part_number if data.part_number else ...`: 0 is falsy in Python
      var part := if data.partNumber.Some? && data.partNumber.value != 0 then data.partNumber.value else |lesson.urls| + 1;
      var urlId := FreshId();
      var url := NewLessonUrl(urlId, data.url, part);
      lesson := lesson.(urls := lesson.urls + [url], updatedAt := now);
      project := project.(lessons := project.lessons[i := lesson], updatedAt := now);
      forall l | l in project.lessons
        ensures LessonIdsBelow(l, nextId)
      {
        if l != lesson {
          assert l in projects[id].lessons;
          assert LessonIdsBelow(l, nextId - 1);
        } else {
          assert projects[id].lessons[i] in projects[id].lessons;
          assert LessonIdsBelow(projects[id].lessons[i], nextId - 1);
        }
      }
      projects := projects[id := project];
      r := Some(url);
    }

    method DeleteUrl(id: Id, lessonId: Id, urlId: Id, now: Clock) returns (deleted: bool)
      requires Valid()
      modifies this
      ensures Valid() && nextId == old(nextId)
      ensures deleted <==> id in old(projects) && FirstLessonWithUrl(old(projects)[id].lessons, lessonId, urlId) < |old(projects)[id].lessons|
      ensures projects ==
        if deleted then
          var p := old(projects)[id];
          var i := FirstLessonWithUrl(p.lessons, lessonId, urlId);
          var l := p.lessons[i];
          old(projects)[id := p.(lessons := p.lessons[i := l.(urls := RemoveById(l.urls, UrlIdOf, urlId), updatedAt := now)], updatedAt := now)]
        else old(projects)
    {
      if id !in projects {
        return false;
      }
      var project := projects[id];
      var i := 0;
      while i < |project.lessons|
        invariant projects == old(projects) && nextId == old(nextId)
        invariant project == projects[id]
        invariant i <= |project.lessons|
        invariant forall k :: 0 <= k < i ==> !(project.lessons[k].id == lessonId && HasUrl(project.lessons[k].urls, urlId))
      {
        var lesson := project.lessons[i];
        if lesson.id == lessonId {
          var originalLen := |lesson.urls|;
          var urls := RemoveById(lesson.urls, UrlIdOf, urlId);
          RemoveByIdShorter(lesson.urls, UrlIdOf, urlId);
          if |urls| < originalLen {
            FirstLessonIsFirstMatchWithUrl(project.lessons, lessonId, urlId, i);
            RemoveByIdMembers(lesson.urls, UrlIdOf, urlId);
            assert lesson in project.lessons;
            lesson := lesson.(urls := urls, updatedAt := now);
            project := project.(lessons := project.lessons[i := lesson], updatedAt := now);
            forall l | l in project.lessons
              ensures LessonIdsBelow(l, nextId)
            {
              if l != lesson {
                assert l in projects[id].lessons;
              }
            }
            projects := projects[id := project];
            return true;
          }
        }
        i := i + 1;
      }
      FirstLessonIsFirstMatchWithUrl(project.lessons, lessonId, urlId, i);
      return false;
    }
  }

  lemma {:induction false} FirstLessonIsFirstMatchWithUrl(lessons: seq<Lesson>, lessonId: Id, urlId: Id, i: nat)
    requires i <= |lessons|
    requires forall k :: 0 <= k < i ==> !(lessons[k].id == lessonId && HasUrl(lessons[k].urls, urlId))
    requires i < |lessons| ==> lessons[i].id == lessonId && HasUrl(lessons[i].urls, urlId)
    ensures FirstLessonWithUrl(lessons, lessonId, urlId) == i
  {
    if lessons != [] && i > 0 {
      FirstLessonIsFirstMatchWithUrl(lessons[1..], lessonId, urlId, i - 1);
    }
  }
}
