/** The learner dashboard's derived lists and figures
    (src/pages/DashboardPage.tsx). */
module DashboardPage {
  import opened Seqs
  import opened Types

  /** `enrollments.some(e => e.courseId === courseId)`. */
  predicate HasEnrollment(enrollments: seq<Enrollment>, courseId: string) {
    exists e :: e in enrollments && e.courseId == courseId
  }

  /** `enrolledCourses`: the catalog courses with at least one enrollment. */
  function EnrolledCourses(courses: seq<Course>, enrollments: seq<Enrollment>): (r: seq<Course>)
    ensures forall c :: c in r ==> c in courses && HasEnrollment(enrollments, c.id)
    ensures forall c :: c in courses && HasEnrollment(enrollments, c.id) ==> c in r
    ensures Sublist(r, courses)
  {
    Filter((c: Course) => HasEnrollment(enrollments, c.id), courses)
  }

  predicate IsComplete(e: Enrollment) {
    e.progress == Percent(100.0)
  }

  predicate IsInProgress(e: Enrollment) {
    e.progress.Percent? && 0.0 < e.progress.value < 100.0
  }

  /** `completedCourses`: the enrollments whose progress is exactly 100. */
  function CompletedCourses(enrollments: seq<Enrollment>): (r: seq<Enrollment>)
    ensures forall e :: e in r ==> e in enrollments && e.progress == Percent(100.0)
    ensures forall e :: e in enrollments && e.progress == Percent(100.0) ==> e in r
    ensures Sublist(r, enrollments)
    ensures forall i :: 0 <= i < |enrollments| ==>
              multiset(r)[enrollments[i]] == (if IsComplete(enrollments[i]) then multiset(enrollments)[enrollments[i]] else 0)
  {
    Filter(IsComplete, enrollments)
  }

  /** `inProgressCourses`: the enrollments strictly between 0 and 100. */
  function InProgressCourses(enrollments: seq<Enrollment>): (r: seq<Enrollment>)
    ensures forall e :: e in r ==> e in enrollments && e.progress.Percent? && 0.0 < e.progress.value < 100.0
    ensures forall e :: e in enrollments && e.progress.Percent? && 0.0 < e.progress.value < 100.0 ==> e in r
    ensures Sublist(r, enrollments)
    ensures forall i :: 0 <= i < |enrollments| ==>
              multiset(r)[enrollments[i]] == (if IsInProgress(enrollments[i]) then multiset(enrollments)[enrollments[i]] else 0)
  {
    Filter(IsInProgress, enrollments)
  }

  /** No enrollment is both completed and in progress; one at 0 (or at
      `Infinity`, for a course without lessons) is neither. */
  lemma CompletedAndInProgressDisjoint(enrollments: seq<Enrollment>, e: Enrollment)
    ensures !(e in CompletedCourses(enrollments) && e in InProgressCourses(enrollments))
    ensures e.progress == Percent(0.0) || e.progress == Infinite ==>
              e !in CompletedCourses(enrollments) && e !in InProgressCourses(enrollments)
  {
  }

  /** The four figures of the stats row; "Learning Hours" is a fixed text. */
  datatype Stats = Stats(enrolled: nat, completed: nat, learningHours: string, certificates: nat)

  /** `stats`: the enrolled and completed counts, the fixed hours text, and as
      many certificates as completed courses. */
  function DashboardStats(courses: seq<Course>, enrollments: seq<Enrollment>): (r: Stats)
    ensures r.enrolled == |EnrolledCourses(courses, enrollments)| && r.enrolled <= |courses|
    ensures r.completed == |CompletedCourses(enrollments)| && r.completed <= |enrollments|
    ensures r.certificates == r.completed && r.learningHours == "24.5"
  {
    var done := |CompletedCourses(enrollments)|;
    Stats(|EnrolledCourses(courses, enrollments)|, done, "24.5", done)
  }

  /** A new enrollment that is not complete leaves the completed and certificate
      figures as they were; one that is complete raises both by one. */
  lemma NewEnrollmentStats(courses: seq<Course>, enrollments: seq<Enrollment>, e: Enrollment)
    ensures var before := DashboardStats(courses, enrollments);
            var after := DashboardStats(courses, enrollments + [e]);
            after.completed == before.completed + (if IsComplete(e) then 1 else 0)
            && after.certificates == after.completed
  {
    FilterAppend(IsComplete, enrollments, [e]);
    assert [e][1..] == [];
  }

  /** Re-enrolling in a course that already has an enrollment leaves the
      enrolled figure as it was. */
  lemma ReenrollKeepsEnrolledFigure(courses: seq<Course>, enrollments: seq<Enrollment>, e: Enrollment)
    requires HasEnrollment(enrollments, e.courseId)
    ensures DashboardStats(courses, enrollments + [e]).enrolled == DashboardStats(courses, enrollments).enrolled
  {
    ReenrollKeepsEnrolledCourses(courses, enrollments, e);
  }

  /** A catalog without repeated courses lists each enrolled course once,
      however many enrollments it has. */
  lemma EnrolledCoursesDistinct(courses: seq<Course>, enrollments: seq<Enrollment>)
    requires NoDup(courses)
    ensures NoDup(EnrolledCourses(courses, enrollments))
  {
    SublistNoDup(EnrolledCourses(courses, enrollments), courses);
  }

  /** Enrolling again in a course that already has an enrollment leaves
      `enrolledCourses` as it was. */
  lemma ReenrollKeepsEnrolledCourses(courses: seq<Course>, enrollments: seq<Enrollment>, e: Enrollment)
    requires HasEnrollment(enrollments, e.courseId)
    ensures EnrolledCourses(courses, enrollments + [e]) == EnrolledCourses(courses, enrollments)
  {
    forall c | c in courses
      ensures HasEnrollment(enrollments + [e], c.id) == HasEnrollment(enrollments, c.id)
    {
      if HasEnrollment(enrollments + [e], c.id) {
        var x :| x in enrollments + [e] && x.courseId == c.id;
      }
    }
    FilterCongruent((c: Course) => HasEnrollment(enrollments + [e], c.id),
                    (c: Course) => HasEnrollment(enrollments, c.id), courses);
  }

  /** The progress a "My Courses" card shows: `enrollment?.progress || 0` for
      the first enrollment of the course. */
  function ShownProgress(enrollments: seq<Enrollment>, courseId: string): (r: Progress)
    ensures (forall i :: 0 <= i < |enrollments| ==> enrollments[i].courseId != courseId) ==> r == Percent(0.0)
    ensures forall i :: 0 <= i < |enrollments| && enrollments[i].courseId == courseId
              && (forall j :: 0 <= j < i ==> enrollments[j].courseId != courseId)
              ==> r == enrollments[i].progress
  {
    match FindIndex((e: Enrollment) => e.courseId == courseId, enrollments)
    case None => Percent(0.0)
    case Some(i) => enrollments[i].progress
  }
}
