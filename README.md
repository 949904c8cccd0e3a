# Ownership-guarded course store

A model of the course controller of the bootcamp directory backend
(`controllers/courses.js`). The controller serves five handlers over a course
collection:

- `getCourses` and `getCourse` read it.
- `addCourse`, `updateCourse` and `deleteCourse` write to it.

Each write handler follows the same check-then-act shape:

1. Load the target: the parent bootcamp for `addCourse`, the course itself otherwise.
2. Stop if the target is missing.
3. Refuse the write unless the caller owns the target or has the role `admin`.
4. Only then write.

The document database becomes two tables:

- `courses: map<CourseId, Course>`, held by the class `CourseStore.Store`.
- `bootcamps: map<BootcampId, Bootcamp>`, used only to look up a bootcamp's owner.

The caller is an already-authenticated `(id, role)` pair. Each handler's
outcome is a `Response`:

- `Ok`, `OkMany`, `OkCount`, `OkNoData`: a 200 answer with a single course, a list, a list with a count, or no data.
- `AdvancedResults`: the pagination middleware's answer.
- `Err(status)`: an error handed to the error handler.
- `NoResponse`: nothing is sent.

Modules:

- `Wrappers`: `Option`, for route parameters and body fields that may be absent.
- `Courses`: the entities (`Caller`, `Role`, `Bootcamp`, `Course`, `Body`, `Response`), the status codes, and the ownership guard `Denied`. It also holds `Created` (the document `Course.create` builds) and `Merged` (the body written over the old record by `findByIdAndUpdate`).
- `CourseQueries`: the read handlers as functions, and lemmas about the lists they return.
- `CourseStore`: the class `Store` with the three write handlers as methods, and lemmas that connect a write to a later read.

The model follows the code where it departs from a conventional access policy, which would answer 403 for an ownership failure, 404 for a missing course, and keep a course's owner fixed except for an admin:

- An ownership failure answers 401, not 403.
- In `updateCourse` and `deleteCourse`, a missing course makes the handler *return* an error object instead of passing it to `next`. The model gives `NoResponse` and no write, where a 404 would be conventional.
- With a bootcamp id, `getCourse` queries with `Course.find`. That returns a list, and a list is truthy in JavaScript even when empty. So the 404 branch can never fire on that path. `GetCourse` models this through the `Truthy` predicate on the query result.
- `updateCourse` writes the whole body over the record. A body that names a `user` or a `bootcamp` therefore changes the course's owner or its bootcamp. So the current owner can hand the course to another user, and `Merged` does what the code does.
- Course ids are handed out by the store in increasing order, from a counter `nextId`. This is the model's stand-in for database-generated ids. `Store.Valid()` keeps two facts: every stored id is below `nextId`, and every stored course carries the id it is stored under. The database's natural order is taken to be ascending id order.

## Model

| member | source | states |
|---|---|---|
| `Courses.Denied` | controllers/courses.js:73-76 | A write is refused exactly when the owner is not the caller and the caller is not an admin; an admin is never refused, whoever the owner (the same guard is at lines 106 and 143). |
| `CourseQueries.Matching` | controllers/courses.js:13 | `Course.find({bootcamp})` over ids below a bound: every course returned is stored under its own id and belongs to the bootcamp; the ids are strictly increasing, so there are no repeats; every stored course of the bootcamp below the bound is included. |
| `CourseQueries.GetCourses` | controllers/courses.js:11-22 | With a bootcamp id, the answer is 200 with `count` equal to the number of courses returned. The list holds exactly the stored courses of that bootcamp, each once. Without a bootcamp id, the answer is the pagination middleware's result. |
| `CourseQueries.GetCourse` | controllers/courses.js:28-54 | Without a bootcamp id: 404 exactly when the id is not stored, otherwise that course. With a bootcamp id: never a 404; a list of at most one course, non-empty exactly when the id is stored and belongs to that bootcamp. |
| `CourseQueries.MatchingCount` | controllers/courses.js:12-18 | The number of courses listed equals the number of stored ids of that bootcamp below the bound. |
| `CourseQueries.GetCoursesCount` | controllers/courses.js:14-18 | The `count` that getCourses reports is the number of stored courses of the bootcamp. |
| `CourseStore.Store.AddCourse` | controllers/courses.js:59-91 | Unknown bootcamp: 404 and nothing written, whoever the caller, so existence is checked before ownership. Caller neither the bootcamp's owner nor an admin: 401 and nothing written. Otherwise one course is added under a fresh id and returned. Its `bootcamp` is the route's bootcamp and its `user` is the caller, whatever the body said. The store invariant is kept. |
| `CourseStore.Store.UpdateCourse` | controllers/courses.js:96-128 | Unknown course: no response and nothing written. Caller neither the course's owner nor an admin: 401 and nothing written. Otherwise the stored record becomes the body merged over the old one, and that record is returned. No other entry changes and the set of ids is the same. |
| `CourseStore.Store.DeleteCourse` | controllers/courses.js:133-157 | Unknown course: no response and nothing written. Caller neither the course's owner nor an admin: 401 and nothing written. Otherwise exactly that id is removed, every other entry is unchanged, and the answer is success with no data. |
| `CourseStore.AddedCourseIsListed` | controllers/courses.js:86-90 | After a successful add, listing the course's bootcamp gives the previous list followed by the new course. |
| `CourseStore.DeletedCourseIsUnlisted` | controllers/courses.js:153-156 | After a successful delete, listing the course's bootcamp reports one course fewer and no longer contains the deleted course. |
| `CourseStore.UpdatedCourseIsRead` | controllers/courses.js:116-127 | After a successful update, getCourse by id returns the merged record. |

## Left out

- Route wiring (`routes/*.js`) is Express registration with no logic of its own. The `deleteAll` handler that `routes/bootcamps.js` registers is never exported by `controllers/bootcamps.js`.
- `controllers/bootcamps.js` is not part of this model: every handler there returns a fixed message.
- Owner ids are compared as abstract ids. The ODM's conversion of an ObjectId to a string in `x.user.id.toString() !== req.user.id` (controllers/courses.js lines 74, 106 and 143), and the difference between `req.user._id` (line 63) and `req.user.id`, are not modelled. `Courses.Denied` holds only under the assumption that these compare equal exactly when they name the same user.
- Authentication (`protect`, `authorize`, token checking) lives in `middleware/auth.js`, which is not part of this model. The caller is an input.
- `populate`, which replaces a course's bootcamp id by the bootcamp's name and description in `getCourse`, is not modelled. The answer carries the bootcamp id.
- The `advancedResults` pagination middleware is not part of this model. `GetCourses` without a bootcamp id answers with the `AdvancedResults` tag only.
- Validation with `runValidators` and schema checks (400 answers), id cast errors, and storage failures (500 answers) are not modelled. The `asyncHandler` error plumbing, logging and JSON serialisation are not modelled either.
- Database-generated ids are replaced by the store's increasing counter.
- The asynchronous gap between the load and the write is not modelled. A concurrent delete between them cannot happen in the model, because each handler is one sequential step over the tables.
