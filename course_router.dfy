/** The course router (app/api/course_router.py). */
module CourseRouter {
  import opened Outcomes
  import opened Domain
  import opened Stores

  /** The id a course is filed under: its `course_id`. */
  function IdOf(x: Course): (id: string)
  {
    x.courseId
  }

  /** The router's module-level dict, empty at start-up. */
  method NewCourseStore() returns (courses: Store<Course>)
    ensures fresh(courses) && courses.Valid()
    ensures courses.duplicateDetail == "Course already exists" && courses.missingDetail == "Course not found"
    ensures courses.entries == map[] && courses.order == []
  {
    courses := new Store<Course>("Course already exists", "Course not found");
  }

  /** `POST /courses/`: insert unless the id is taken. */
  method CreateCourse(courses: Store<Course>, course: Course) returns (r: Result<Course>)
    requires courses.Valid() && courses.duplicateDetail == "Course already exists"
    modifies courses
    ensures courses.Valid()
    ensures course.courseId in old(courses.entries) ==>
      && r == Err(HttpError(400, "Course already exists"))
      && courses.entries == old(courses.entries) && courses.order == old(courses.order)
    ensures course.courseId !in old(courses.entries) ==>
      && r == Ok(course)
      && courses.entries == old(courses.entries)[course.courseId := course]
      && courses.order == old(courses.order) + [course.courseId]
    ensures KeyedBy(old(courses.entries), IdOf) ==> KeyedBy(courses.entries, IdOf)
  {
    r := courses.Create(course.courseId, course);
  }

  /** `GET /courses/`: every stored course, in insertion order; reads only. */
  method ListCourses(courses: Store<Course>) returns (r: seq<Course>)
    requires courses.Valid()
    ensures ListsInOrder(r, courses.entries, courses.order)
  {
    r := courses.List();
  }

  /** `GET /courses/{course_id}`: the stored course or 404; reads only. */
  method GetCourse(courses: Store<Course>, courseId: string) returns (r: Result<Course>)
    requires courses.Valid() && courses.missingDetail == "Course not found"
    ensures courseId in courses.entries ==> r == Ok(courses.entries[courseId])
    ensures courseId !in courses.entries ==> r == Err(HttpError(404, "Course not found"))
    ensures r.Ok? && KeyedBy(courses.entries, IdOf) ==> r.value.courseId == courseId
  {
    r := courses.Get(courseId);
  }

  /** A successful create followed by a get of the same id returns the
      course that was created. */
  method CreateThenGet(courses: Store<Course>, course: Course) returns (created: Result<Course>, fetched: Result<Course>)
    requires courses.Valid() && courses.duplicateDetail == "Course already exists"
    requires courses.missingDetail == "Course not found"
    modifies courses
    ensures created.Ok? ==> fetched == Ok(course)
    ensures created.Err? ==> course.courseId in old(courses.entries) && fetched == Ok(old(courses.entries)[course.courseId])
  {
    created := CreateCourse(courses, course);
    fetched := GetCourse(courses, course.courseId);
  }
}
