/** The course and enrollment store (src/stores/courseStore.ts): the catalog,
    the learner's enrollments, the course being viewed, and the progress each
    enrollment records. */
module CourseStore {
  import opened Seqs
  import opened Text
  import opened Types

  /** The id the store gives the learner; courseStore.ts hard-codes it. */
  const CurrentUserId := "1"

  /** Prefix of the enrollment ids, which end in `Date.now()`. */
  const EnrollmentIdPrefix := "enrollment_"

  /** `courses.find(c => c.id === id)`: the first course with the id. */
  function CourseById(courses: seq<Course>, id: string): (r: Option<Course>)
    ensures r.Some? ==> r.value in courses && r.value.id == id
    ensures r.Some? ==> exists i :: 0 <= i < |courses| && courses[i] == r.value
                         && forall j :: 0 <= j < i ==> courses[j].id != id
    ensures r.None? <==> forall c :: c in courses ==> c.id != id
  {
    Find((c: Course) => c.id == id, courses)
  }

  /** The ids of a course's lessons, in course order. */
  function LessonIds(c: Course): (r: seq<string>)
    ensures |r| == |c.lessons|
    ensures forall i :: 0 <= i < |r| ==> r[i] == c.lessons[i].id
  {
    seq(|c.lessons|, i requires 0 <= i < |c.lessons| => c.lessons[i].id)
  }

  /** `course ? (completed / course.lessons.length) * 100 : 0` for a
      non-empty completed list: the share of the course's lessons, as a
      percentage, or 0 when the course is not in the catalog. */
  function ProgressFor(course: Option<Course>, completed: nat): (r: Progress)
    requires completed > 0
    ensures course.None? ==> r == Percent(0.0)
    ensures course.Some? && |course.value.lessons| == 0 ==> r == Infinite
    ensures course.Some? && |course.value.lessons| > 0 ==>
              r.Percent? && r.value * (|course.value.lessons| as real) == 100.0 * (completed as real)
  {
    match course
    case None => Percent(0.0)
    case Some(c) =>
      if |c.lessons| == 0 then Infinite
      else Percent((completed as real) / (|c.lessons| as real) * 100.0)
  }

  /** The progress an enrollment with these completed lessons should show
      against `courses`: 0 until a lesson is completed, then `ProgressFor`. */
  function ExpectedProgress(courses: seq<Course>, courseId: string, completed: seq<string>): Progress {
    if completed == [] then Percent(0.0) else ProgressFor(CourseById(courses, courseId), |completed|)
  }

  /** The record `enrollInCourse(courseId)` creates at time `now`. */
  function NewEnrollment(courseId: string, now: nat, enrolledAt: string): (r: Enrollment)
    ensures r.courseId == courseId && r.userId == CurrentUserId && r.enrolledAt == enrolledAt
    ensures r.progress == Percent(0.0) && r.completedLessons == [] && !r.certificateIssued
    ensures r.lastAccessedLessonId.None?
    ensures r.id == EnrollmentIdPrefix + NatToString(now)
  {
    Enrollment(EnrollmentIdPrefix + NatToString(now), CurrentUserId, courseId, enrolledAt,
               Percent(0.0), None, [], false)
  }

  /** The body of the `map` in `updateProgress` for an enrollment whose
      courseId matches: record `lessonId` once and recompute the progress. */
  function Advance(courses: seq<Course>, e: Enrollment, lessonId: string): (r: Enrollment)
    ensures lessonId in r.completedLessons
    ensures lessonId in e.completedLessons ==> r.completedLessons == e.completedLessons
    ensures lessonId !in e.completedLessons ==> r.completedLessons == e.completedLessons + [lessonId]
    ensures NoDup(e.completedLessons) ==> NoDup(r.completedLessons)
    ensures r.progress == ExpectedProgress(courses, e.courseId, r.completedLessons)
    ensures r.lastAccessedLessonId == Some(lessonId)
    ensures r == e.(completedLessons := r.completedLessons, progress := r.progress,
                    lastAccessedLessonId := Some(lessonId))
  {
    var completed := if lessonId in e.completedLessons then e.completedLessons
                     else e.completedLessons + [lessonId];
    assert NoDup(e.completedLessons) ==> NoDup(completed) by {
      if NoDup(e.completedLessons) && lessonId !in e.completedLessons {
        forall i, j | 0 <= i < j < |completed| ensures completed[i] != completed[j] {
          if j == |e.completedLessons| {
            assert completed[i] == e.completedLessons[i];
          }
        }
      }
    }
    e.(completedLessons := completed,
       progress := ProgressFor(CourseById(courses, e.courseId), |completed|),
       lastAccessedLessonId := Some(lessonId))
  }

  /** `state.enrollments.map(...)` of `updateProgress(courseId, lessonId)`. */
  function UpdatedEnrollments(courses: seq<Course>, es: seq<Enrollment>, courseId: string, lessonId: string)
    : (r: seq<Enrollment>)
    ensures |r| == |es|
    ensures forall i :: 0 <= i < |es| && es[i].courseId != courseId ==> r[i] == es[i]
    ensures forall i :: 0 <= i < |es| && es[i].courseId == courseId ==> r[i] == Advance(courses, es[i], lessonId)
  {
    seq(|es|, i requires 0 <= i < |es| =>
      if es[i].courseId == courseId then Advance(courses, es[i], lessonId) else es[i])
  }

  /** `searchCourses(query)`: a case-insensitive substring test on the
      title, the description or any tag. */
  predicate MatchesSearch(c: Course, query: string): (b: bool)
    ensures query == [] ==> b
  {
    var q := ToLower(query);
    Contains(ToLower(c.title), q) || Contains(ToLower(c.description), q)
    || exists tag :: tag in c.tags && Contains(ToLower(tag), q)
  }

  /** The `filters` argument of `filterCourses`; an empty string stands for
      a missing (falsy) filter. */
  datatype Filters = Filters(category: string, level: string, price: string)

  /** The test `filterCourses` applies to each course. Without a category or
      a level, a price other than "free" and "paid" keeps every course. */
  predicate MatchesFilters(c: Course, f: Filters): (b: bool)
    ensures f.category == "" && f.level == "" && f.price != "free" && f.price != "paid" ==> b
  {
    && (f.category == "" || c.category == f.category)
    && (f.level == "" || LevelName(c.level) == f.level)
    && !(f.price == "free" && !c.isFree)
    && !(f.price == "paid" && c.isFree)
  }

  /** The invariant an enrollment keeps while the catalog stays the same: its
      completed lessons are distinct and its progress is the one they imply. */
  ghost predicate Tracked(courses: seq<Course>, e: Enrollment) {
    NoDup(e.completedLessons) && e.progress == ExpectedProgress(courses, e.courseId, e.completedLessons)
  }

  class CourseState {
    /** The store's fixed mock list, `mockCourses`. */
    const catalog: seq<Course>
    var courses: seq<Course>
    var enrollments: seq<Enrollment>
    var currentCourse: Option<Course>
    var isLoading: bool

    /** Every enrollment agrees with the catalog. */
    ghost predicate Valid()
      reads this
    {
      forall i :: 0 <= i < |enrollments| ==> Tracked(courses, enrollments[i])
    }

    constructor (mockCourses: seq<Course>)
      ensures catalog == mockCourses
      ensures courses == [] && enrollments == [] && currentCourse == None && !isLoading
      ensures Valid()
    {
      catalog := mockCourses;
      courses, enrollments, currentCourse, isLoading := [], [], None, false;
    }

    /** `fetchCourses()`, after its delay: the loaded courses become the mock list. */
    method FetchCourses()
      modifies this
      ensures courses == catalog && !isLoading
      ensures enrollments == old(enrollments) && currentCourse == old(currentCourse)
    {
      courses := catalog;
      isLoading := false;
    }

    /** `fetchCourse(id)`, after its delay: the first course of the mock list
        with the id. It searches the mock list, not the loaded `courses`. */
    method FetchCourse(id: string)
      modifies this
      ensures currentCourse == CourseById(catalog, id) && !isLoading
      ensures currentCourse.Some? ==> currentCourse.value.id == id
      ensures currentCourse.None? <==> forall c :: c in catalog ==> c.id != id
      ensures courses == old(courses) && enrollments == old(enrollments)
    {
      currentCourse := CourseById(catalog, id);
      isLoading := false;
    }

    /** `enrollInCourse(courseId)`, after its delay; `now` is `Date.now()`
        and `enrolledAt` the ISO time string. No existing enrollment is
        checked for. */
    method EnrollInCourse(courseId: string, now: nat, enrolledAt: string)
      modifies this
      ensures enrollments == old(enrollments) + [NewEnrollment(courseId, now, enrolledAt)]
      ensures courses == old(courses) && currentCourse == old(currentCourse) && isLoading == old(isLoading)
      ensures old(Valid()) ==> Valid()
    {
      enrollments := enrollments + [NewEnrollment(courseId, now, enrolledAt)];
    }

    /** `updateProgress(courseId, lessonId)`. */
    method UpdateProgress(courseId: string, lessonId: string)
      modifies this
      ensures enrollments == UpdatedEnrollments(old(courses), old(enrollments), courseId, lessonId)
      ensures courses == old(courses) && currentCourse == old(currentCourse) && isLoading == old(isLoading)
      ensures old(Valid()) ==> Valid()
    {
      if Valid() {
        UpdatePreservesTracked(courses, enrollments, courseId, lessonId);
      }
      enrollments := UpdatedEnrollments(courses, enrollments, courseId, lessonId);
    }

    /** `searchCourses(query)` over the loaded catalog. */
    function SearchCourses(query: string): (r: seq<Course>)
      reads this
      ensures forall c :: c in r ==> c in courses && MatchesSearch(c, query)
      ensures forall c :: c in courses && MatchesSearch(c, query) ==> c in r
      ensures Sublist(r, courses)
    {
      Filter((c: Course) => MatchesSearch(c, query), courses)
    }

    /** `filterCourses(filters)` over the loaded catalog. */
    function FilterCourses(f: Filters): (r: seq<Course>)
      reads this
      ensures forall c :: c in r ==> c in courses && MatchesFilters(c, f)
      ensures forall c :: c in courses && MatchesFilters(c, f) ==> c in r
      ensures Sublist(r, courses)
    {
      Filter((c: Course) => MatchesFilters(c, f), courses)
    }
  }

  /** `updateProgress` keeps every enrollment `Tracked`. */
  lemma UpdatePreservesTracked(courses: seq<Course>, es: seq<Enrollment>, courseId: string, lessonId: string)
    requires forall i :: 0 <= i < |es| ==> Tracked(courses, es[i])
    ensures var r := UpdatedEnrollments(courses, es, courseId, lessonId);
            forall i :: 0 <= i < |r| ==> Tracked(courses, r[i])
  {
  }

  /** Enrolling adds exactly one record for the course, even when the course
      already has one, so enrolling twice yields two. */
  lemma EnrollAddsOneRecord(es: seq<Enrollment>, courseId: string, now: nat, enrolledAt: string)
    ensures var forCourse := (e: Enrollment) => e.courseId == courseId;
            |Filter(forCourse, es + [NewEnrollment(courseId, now, enrolledAt)])| == |Filter(forCourse, es)| + 1
  {
    var forCourse := (e: Enrollment) => e.courseId == courseId;
    var n := NewEnrollment(courseId, now, enrolledAt);
    FilterAppend(forCourse, es, [n]);
    assert Filter(forCourse, [n]) == [n] by {
      assert [n][1..] == [];
    }
  }

  /** Marking a lesson that is already completed leaves the lesson list as it was. */
  lemma AdvanceCompletedLessonKeepsList(courses: seq<Course>, e: Enrollment, lessonId: string)
    requires lessonId in e.completedLessons
    ensures Advance(courses, e, lessonId).completedLessons == e.completedLessons
  {
  }

  /** `updateProgress` is idempotent: a second identical call changes nothing. */
  lemma UpdateProgressIdempotent(courses: seq<Course>, es: seq<Enrollment>, courseId: string, lessonId: string)
    ensures var once := UpdatedEnrollments(courses, es, courseId, lessonId);
            UpdatedEnrollments(courses, once, courseId, lessonId) == once
  {
    var once := UpdatedEnrollments(courses, es, courseId, lessonId);
    var twice := UpdatedEnrollments(courses, once, courseId, lessonId);
    forall i | 0 <= i < |es| ensures twice[i] == once[i] {
      if es[i].courseId == courseId {
        var a := Advance(courses, es[i], lessonId);
        assert once[i] == a;
        var b := Advance(courses, a, lessonId);
        assert b.completedLessons == a.completedLessons;
        assert b == a;
      }
    }
  }

  /** The progress stays within 100 when the completed ids are distinct lessons
      of the course; `updateProgress` itself does not check `lessonId`. */
  lemma TrackedProgressAtMost100(courses: seq<Course>, e: Enrollment)
    requires Tracked(courses, e)
    requires CourseById(courses, e.courseId).Some?
    requires forall id :: id in e.completedLessons ==> id in LessonIds(CourseById(courses, e.courseId).value)
    ensures e.progress.Percent? && 0.0 <= e.progress.value <= 100.0
  {
    var c := CourseById(courses, e.courseId).value;
    DistinctDrawnFromIsShorter(e.completedLessons, LessonIds(c));
    if e.completedLessons != [] {
      var n := |e.completedLessons| as real;
      var m := |c.lessons| as real;
      assert m > 0.0;
      assert e.progress.value * m == 100.0 * n;
      assert n <= m;
      ScaledBound(e.progress.value, n, m);
    }
  }

  lemma ScaledBound(v: real, n: real, m: real)
    requires 0.0 <= n <= m && m > 0.0 && v * m == 100.0 * n
    ensures 0.0 <= v <= 100.0
  {
    assert (100.0 - v) * m == 100.0 * (m - n);
  }

  /** A lesson id that is not in the course still counts: a one-lesson course
      with "a" completed reaches 200 percent once "b" is recorded. */
  lemma UnknownLessonOverflows(c: Course, e: Enrollment)
    requires |c.lessons| == 1 && c.lessons[0].id == "a"
    requires e.courseId == c.id && e.completedLessons == ["a"]
    ensures Advance([c], e, "b").progress == Percent(200.0)
  {
    assert CourseById([c], c.id) == Some(c);
  }
}
