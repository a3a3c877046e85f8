/** The enrollment router (app/api/enrollment_router.py). */
module EnrollmentRouter {
  import opened Outcomes
  import opened Domain
  import opened Stores

  /** The id an enrollment is filed under: its `enrollment_id`. */
  function IdOf(x: Enrollment): (id: string)
  {
    x.enrollmentId
  }

  /** The router's module-level dict, empty at start-up. */
  method NewEnrollmentStore() returns (enrollments: Store<Enrollment>)
    ensures fresh(enrollments) && enrollments.Valid()
    ensures enrollments.duplicateDetail == "Enrollment already exists" && enrollments.missingDetail == "Enrollment not found"
    ensures enrollments.entries == map[] && enrollments.order == []
  {
    enrollments := new Store<Enrollment>("Enrollment already exists", "Enrollment not found");
  }

  /** `POST /enrollments/`: insert unless the id is taken. */
  method CreateEnrollment(enrollments: Store<Enrollment>, enrollment: Enrollment) returns (r: Result<Enrollment>)
    requires enrollments.Valid() && enrollments.duplicateDetail == "Enrollment already exists"
    modifies enrollments
    ensures enrollments.Valid()
    ensures enrollment.enrollmentId in old(enrollments.entries) ==>
      && r == Err(HttpError(400, "Enrollment already exists"))
      && enrollments.entries == old(enrollments.entries) && enrollments.order == old(enrollments.order)
    ensures enrollment.enrollmentId !in old(enrollments.entries) ==>
      && r == Ok(enrollment)
      && enrollments.entries == old(enrollments.entries)[enrollment.enrollmentId := enrollment]
      && enrollments.order == old(enrollments.order) + [enrollment.enrollmentId]
    ensures KeyedBy(old(enrollments.entries), IdOf) ==> KeyedBy(enrollments.entries, IdOf)
  {
    r := enrollments.Create(enrollment.enrollmentId, enrollment);
  }

  /** `GET /enrollments/`: every stored enrollment, in insertion order; reads only. */
  method ListEnrollments(enrollments: Store<Enrollment>) returns (r: seq<Enrollment>)
    requires enrollments.Valid()
    ensures ListsInOrder(r, enrollments.entries, enrollments.order)
  {
    r := enrollments.List();
  }

  /** `GET /enrollments/{enrollment_id}`: the stored enrollment or 404; reads only. */
  method GetEnrollment(enrollments: Store<Enrollment>, enrollmentId: string) returns (r: Result<Enrollment>)
    requires enrollments.Valid() && enrollments.missingDetail == "Enrollment not found"
    ensures enrollmentId in enrollments.entries ==> r == Ok(enrollments.entries[enrollmentId])
    ensures enrollmentId !in enrollments.entries ==> r == Err(HttpError(404, "Enrollment not found"))
    ensures r.Ok? && KeyedBy(enrollments.entries, IdOf) ==> r.value.enrollmentId == enrollmentId
  {
    r := enrollments.Get(enrollmentId);
  }
}
