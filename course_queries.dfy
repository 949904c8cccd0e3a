/**
 * The two read-only handlers, `getCourses` and `getCourse`, as functions over
 * the course table. Course ids are handed out in increasing order, so the
 * database's natural order is ascending id order, and a list of the courses
 * below a bound `n` is built by walking the ids below `n`.
 */
module CourseQueries {
  import opened Wrappers
  import opened Courses

  /** Every stored course carries the id it is stored under. */
  ghost predicate Keyed(courses: map<CourseId, Course>)
  {
    forall id :: id in courses ==> courses[id].id == id
  }

  /** Every stored id lies below `bound`. */
  ghost predicate Below(courses: map<CourseId, Course>, bound: nat)
  {
    forall id :: id in courses ==> id < bound
  }

  /** The ids below `n` whose course belongs to bootcamp `b`. */
  ghost function MatchIds(courses: map<CourseId, Course>, b: BootcampId, n: nat): set<CourseId>
  {
    set id | id in courses && id < n && courses[id].bootcamp == b
  }

  /** Whether the entry for `id` is a course of bootcamp `b`. */
  predicate IsOf(courses: map<CourseId, Course>, b: BootcampId, id: CourseId)
  {
    id in courses && courses[id].bootcamp == b
  }

  /**
   * `Course.find({bootcamp: b})` restricted to ids below `n`: the stored
   * courses of bootcamp `b`, each once, in ascending id order.
   */
  function Matching(courses: map<CourseId, Course>, b: BootcampId, n: nat): (r: seq<Course>)
    requires Keyed(courses)
    ensures forall i :: 0 <= i < |r| ==> r[i].id < n && r[i].id in courses && courses[r[i].id] == r[i]
    ensures forall i :: 0 <= i < |r| ==> r[i].bootcamp == b
    ensures forall i, j :: 0 <= i < j < |r| ==> r[i].id < r[j].id
    ensures forall id: CourseId :: id < n && IsOf(courses, b, id) ==> courses[id] in r
    decreases n
  {
    if n == 0 then []
    else
      var prefix := Matching(courses, b, n - 1);
      if IsOf(courses, b, n - 1) then prefix + [courses[n - 1]] else prefix
  }

  /**
   * getCourses: with a bootcamp id, the courses of that bootcamp and their
   * number; without one, whatever the pagination middleware computed.
   */
  function GetCourses(courses: map<CourseId, Course>, bound: nat, bootcampId: Option<BootcampId>): (r: Response)
    requires Keyed(courses) && Below(courses, bound)
    ensures bootcampId.None? ==> r == AdvancedResults
    ensures bootcampId.Some? ==> r.OkCount? && r.count == |r.list|
    ensures bootcampId.Some? ==>
      (forall i :: 0 <= i < |r.list| ==> r.list[i].bootcamp == bootcampId.value && r.list[i].id in courses && courses[r.list[i].id] == r.list[i])
    ensures bootcampId.Some? ==>
      (forall id: CourseId :: IsOf(courses, bootcampId.value, id) ==> courses[id] in r.list)
    ensures bootcampId.Some? ==> (forall i, j :: 0 <= i < j < |r.list| ==> r.list[i] != r.list[j])
  {
    match bootcampId
    case Some(b) =>
      var found := Matching(courses, b, bound);
      OkCount(|found|, found)
    case None => AdvancedResults
  }

  /**
   * What a query yields: `findById` gives one document or null, `find` gives
   * a list. A list is truthy in JavaScript even when it is empty.
   */
  datatype Found = One(doc: Option<Course>) | Many(docs: seq<Course>)

  predicate Truthy(q: Found)
  {
    match q
    case One(d) => d.Some?
    case Many(_) => true
  }

  /**
   * getCourse: without a bootcamp id, the course by id or a 404; with one,
   * the (at most one) course with that id in that bootcamp, and never a 404,
   * since the list the query returns is always truthy.
   */
  function GetCourse(courses: map<CourseId, Course>, bootcampId: Option<BootcampId>, courseId: CourseId): (r: Response)
    ensures bootcampId.None? ==> (r == Err(NotFound) <==> courseId !in courses)
    ensures bootcampId.None? && courseId in courses ==> r == Ok(courses[courseId])
    ensures bootcampId.Some? ==> r.OkMany? && |r.list| <= 1
    ensures bootcampId.Some? ==> (r.list != [] <==> IsOf(courses, bootcampId.value, courseId))
    ensures bootcampId.Some? ==> forall c :: c in r.list ==> c == courses[courseId] && c.bootcamp == bootcampId.value
  {
    var query :=
      match bootcampId
      case Some(b) => Many(if IsOf(courses, b, courseId) then [courses[courseId]] else [])
      case None => One(if courseId in courses then Some(courses[courseId]) else None);
    if !Truthy(query) then Err(NotFound)
    else match query
      case One(d) => Ok(d.value)
      case Many(ds) => OkMany(ds)
  }

  /** Going from `n - 1` to `n` adds `n - 1` to the matching ids exactly when it matches. */
  lemma MatchIdsStep(courses: map<CourseId, Course>, b: BootcampId, n: nat)
    requires n > 0
    ensures MatchIds(courses, b, n) == MatchIds(courses, b, n - 1) + (if IsOf(courses, b, n - 1) then {n - 1} else {})
    ensures n - 1 !in MatchIds(courses, b, n - 1)
  {
  }

  /** The length of the list is the number of stored courses of that bootcamp below `n`. */
  lemma {:induction false} MatchingCount(courses: map<CourseId, Course>, b: BootcampId, n: nat)
    requires Keyed(courses)
    ensures |Matching(courses, b, n)| == |MatchIds(courses, b, n)|
  {
    if n == 0 {
      assert MatchIds(courses, b, 0) == {};
    } else {
      MatchingCount(courses, b, n - 1);
      MatchIdsStep(courses, b, n);
      var prefix := Matching(courses, b, n - 1);
      assert |Matching(courses, b, n)| == |prefix| + (if IsOf(courses, b, n - 1) then 1 else 0);
    }
  }

  /** The count getCourses reports is the number of stored courses of the bootcamp. */
  lemma GetCoursesCount(courses: map<CourseId, Course>, bound: nat, b: BootcampId)
    requires Keyed(courses) && Below(courses, bound)
    ensures GetCourses(courses, bound, Some(b)).count == |set id | id in courses && courses[id].bootcamp == b|
  {
    MatchingCount(courses, b, bound);
    assert MatchIds(courses, b, bound) == set id | id in courses && courses[id].bootcamp == b;
  }

  /** The list below `n` only depends on the entries below `n`. */
  lemma {:induction false} MatchingFrame(c1: map<CourseId, Course>, c2: map<CourseId, Course>, b: BootcampId, n: nat)
    requires Keyed(c1) && Keyed(c2)
    requires forall id: CourseId :: id < n ==> (id in c1 <==> id in c2)
    requires forall id: CourseId :: id < n && id in c1 ==> c1[id] == c2[id]
    ensures Matching(c1, b, n) == Matching(c2, b, n)
  {
    if n > 0 {
      MatchingFrame(c1, c2, b, n - 1);
    }
  }
}
