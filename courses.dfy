/**
 * The entities the course controller works on, the outcome of a request,
 * and the ownership predicate every write handler applies.
 */
module Courses {
  import opened Wrappers

  type UserId = nat
  type BootcampId = nat
  type CourseId = nat
  type Value = string

  /** The roles a caller can hold; only `Admin` overrides ownership. */
  datatype Role = User | Publisher | Admin

  /** The caller as resolved by the authentication middleware: its id and role. */
  datatype Caller = Caller(id: UserId, role: Role)

  /** A bootcamp as far as this controller sees it: the user who owns it. */
  datatype Bootcamp = Bootcamp(user: UserId)

  /**
   * A stored course document: its id, its domain fields (title, tuition, ...),
   * the bootcamp it belongs to and the user who owns it. `fields` holds only
   * the domain fields: the keys `_id`, `bootcamp` and `user` are the
   * dedicated components and never appear in it.
   */
  datatype Course = Course(id: CourseId, fields: map<string, Value>, bootcamp: BootcampId, user: UserId)

  /**
   * A request body: domain fields, and possibly a `bootcamp` and a `user`.
   * As in `Course`, a body key `bootcamp` or `user` is carried by the
   * dedicated component, never by `fields`.
   */
  datatype Body = Body(fields: map<string, Value>, bootcamp: Option<BootcampId>, user: Option<UserId>)

  /** What a handler sends back, if anything. */
  datatype Response =
    | Ok(course: Course)                    // 200 {success: true, data: course}
    | OkMany(list: seq<Course>)             // 200 {success: true, data: [..]}
    | OkCount(count: nat, list: seq<Course>) // 200 {success: true, count, data: [..]}
    | OkNoData                              // 200 {success: true}
    | AdvancedResults                       // 200 with the pagination middleware's result
    | Err(status: nat)                      // an ErrorResponse handed to the error handler
    | NoResponse                            // nothing is sent at all

  const NotFound: nat := 404
  const Unauthorized: nat := 401

  /**
   * The guard of the three write handlers: the write is refused when the
   * owner is not the caller and the caller is not an admin. This predicate is
   * the authorization policy itself; its first postcondition restates it in
   * the positive form (allowed for the owner or an admin), the second is the
   * admin override.
   */
  function Denied(owner: UserId, caller: Caller): (r: bool)
    ensures !r <==> owner == caller.id || caller.role == Admin
    ensures caller.role == Admin ==> !r
    ensures caller.role != Admin && owner != caller.id ==> r
  {
    owner != caller.id && caller.role != Admin
  }

  /** The document `Course.create` builds from a body whose `bootcamp` and `user` are set. */
  function Created(id: CourseId, body: Body): (r: Course)
    requires body.bootcamp.Some? && body.user.Some?
  {
    Course(id, body.fields, body.bootcamp.value, body.user.value)
  }

  /** The document `findByIdAndUpdate` stores: the body's fields written over the old record. */
  function Merged(c: Course, body: Body): (r: Course)
  {
    Course(c.id, c.fields + body.fields, body.bootcamp.GetOr(c.bootcamp), body.user.GetOr(c.user))
  }
}
