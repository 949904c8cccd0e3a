/**
 * The course table with its three guarded write handlers. Each handler loads
 * its target (the parent bootcamp, or the course itself), stops if it is
 * missing, applies the ownership guard, and only then writes.
 */
module CourseStore {
  import opened Wrappers
  import opened Courses
  import opened CourseQueries

  class Store {
    /** The course collection, keyed by id. */
    var courses: map<CourseId, Course>
    /** The bootcamp collection, read here only to find a bootcamp's owner. */
    var bootcamps: map<BootcampId, Bootcamp>
    /** The id the next created course receives; ids are handed out in increasing order. */
    var nextId: CourseId

    ghost predicate Valid()
      reads this
    {
      Keyed(courses) && Below(courses, nextId)
    }

    constructor (bootcamps: map<BootcampId, Bootcamp>)
      ensures Valid()
      ensures this.bootcamps == bootcamps && courses == map[] && nextId == 0
    {
      this.bootcamps := bootcamps;
      courses := map[];
      nextId := 0;
    }

    /**
     * addCourse: the body's `bootcamp` and `user` are overwritten with the
     * route's bootcamp and the caller; a missing bootcamp is a 404 before
     * ownership is looked at; a caller who neither owns the bootcamp nor is an
     * admin gets a 401; otherwise the course is created and returned.
     */
    method AddCourse(bootcampId: BootcampId, body: Body, caller: Caller) returns (res: Response)
      requires Valid()
      modifies this`courses, this`nextId
      ensures Valid()
      ensures bootcampId !in bootcamps ==>
        res == Err(NotFound) && courses == old(courses) && nextId == old(nextId)
      ensures bootcampId in bootcamps && Denied(bootcamps[bootcampId].user, caller) ==>
        res == Err(Unauthorized) && courses == old(courses) && nextId == old(nextId)
      ensures bootcampId in bootcamps && !Denied(bootcamps[bootcampId].user, caller) ==>
        && res.Ok?
        && res.course == Course(old(nextId), body.fields, bootcampId, caller.id)
        && old(nextId) !in old(courses)
        && courses == old(courses)[old(nextId) := res.course]
        && nextId == old(nextId) + 1
    {
      var req := body.(bootcamp := Some(bootcampId));
      req := req.(user := Some(caller.id));
      if bootcampId !in bootcamps {
        return Err(NotFound);
      }
      var bootcamp := bootcamps[bootcampId];
      if Denied(bootcamp.user, caller) {
        return Err(Unauthorized);
      }
      var course := Created(nextId, req);
      courses := courses[nextId := course];
      nextId := nextId + 1;
      res := Ok(course);
    }

    /**
     * updateCourse: a missing course makes the handler return without
     * answering; a caller who neither owns the course nor is an admin gets a
     * 401; otherwise the body is written over that one course, which is
     * returned.
     */
    method UpdateCourse(courseId: CourseId, body: Body, caller: Caller) returns (res: Response)
      requires Valid()
      modifies this`courses
      ensures Valid()
      ensures courseId !in old(courses) ==> res == NoResponse && courses == old(courses)
      ensures courseId in old(courses) && Denied(old(courses)[courseId].user, caller) ==>
        res == Err(Unauthorized) && courses == old(courses)
      ensures courseId in old(courses) && !Denied(old(courses)[courseId].user, caller) ==>
        && res == Ok(Merged(old(courses)[courseId], body))
        && courses == old(courses)[courseId := res.course]
      ensures courses.Keys == old(courses).Keys
      ensures forall id :: id in courses && id != courseId ==> courses[id] == old(courses)[id]
    {
      if courseId !in courses {
        return NoResponse;
      }
      var course := courses[courseId];
      if Denied(course.user, caller) {
        return Err(Unauthorized);
      }
      var updated := Merged(course, body);
      courses := courses[courseId := updated];
      res := Ok(updated);
    }

    /**
     * deleteCourse: a missing course makes the handler return without
     * answering; a caller who neither owns the course nor is an admin gets a
     * 401; otherwise exactly that course is removed and success is reported
     * with no data.
     */
    method DeleteCourse(courseId: CourseId, caller: Caller) returns (res: Response)
      requires Valid()
      modifies this`courses
      ensures Valid()
      ensures courseId !in old(courses) ==> res == NoResponse && courses == old(courses)
      ensures courseId in old(courses) && Denied(old(courses)[courseId].user, caller) ==>
        res == Err(Unauthorized) && courses == old(courses)
      ensures courseId in old(courses) && !Denied(old(courses)[courseId].user, caller) ==>
        res == OkNoData && courses == old(courses) - {courseId}
      ensures courses.Keys <= old(courses).Keys
      ensures forall id :: id in old(courses) && id != courseId ==> id in courses && courses[id] == old(courses)[id]
    {
      if courseId !in courses {
        return NoResponse;
      }
      var course := courses[courseId];
      if Denied(course.user, caller) {
        return Err(Unauthorized);
      }
      courses := courses - {courseId};
      res := OkNoData;
    }
  }

  /**
   * After a successful addCourse, listing the route's bootcamp gives the old
   * list followed by the new course, and the count grows by one.
   */
  lemma AddedCourseIsListed(courses: map<CourseId, Course>, nextId: CourseId, c: Course)
    requires Keyed(courses) && Below(courses, nextId)
    requires c.id == nextId
    ensures GetCourses(courses[nextId := c], nextId + 1, Some(c.bootcamp)).list
         == GetCourses(courses, nextId, Some(c.bootcamp)).list + [c]
  {
    var after := courses[nextId := c];
    MatchingFrame(after, courses, c.bootcamp, nextId);
  }

  /**
   * After a successful deleteCourse, listing the deleted course's bootcamp
   * reports one course fewer and no longer contains it.
   */
  lemma DeletedCourseIsUnlisted(courses: map<CourseId, Course>, bound: nat, courseId: CourseId)
    requires Keyed(courses) && Below(courses, bound)
    requires courseId in courses
    ensures var b := courses[courseId].bootcamp;
      && GetCourses(courses - {courseId}, bound, Some(b)).count + 1 == GetCourses(courses, bound, Some(b)).count
      && courses[courseId] !in GetCourses(courses - {courseId}, bound, Some(b)).list
  {
    var b := courses[courseId].bootcamp;
    var after := courses - {courseId};
    MatchingCount(courses, b, bound);
    MatchingCount(after, b, bound);
    assert MatchIds(after, b, bound) == MatchIds(courses, b, bound) - {courseId};
    assert courseId in MatchIds(courses, b, bound);
  }

  /** After a successful updateCourse, getCourse by id yields the merged record. */
  lemma UpdatedCourseIsRead(courses: map<CourseId, Course>, courseId: CourseId, body: Body)
    requires courseId in courses
    ensures GetCourse(courses[courseId := Merged(courses[courseId], body)], None, courseId)
         == Ok(Merged(courses[courseId], body))
  {
  }
}
