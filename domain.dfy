/** The records the routers store (the pydantic models of app/domain).
    Timestamps are whole seconds; generated ids arrive as inputs. */
module Domain {
  import opened Outcomes

  datatype PreferenceProfile = PreferenceProfile(interests: seq<string>, preferredCategory: Option<string>)

  datatype Profile = Profile(profileId: string, preferences: PreferenceProfile, lastLogin: Option<int>)

  datatype AuthenticationCredential = AuthenticationCredential(email: string, passwordHash: string)

  /** A learner; `passwordHash` is the only credential field it has. */
  datatype Learner = Learner(
    learnerId: string,
    name: string,
    email: string,
    passwordHash: string,
    joinDate: int,
    profile: Option<Profile>)

  datatype CourseDetail = CourseDetail(duration: Option<int>, level: Option<string>, category: Option<string>)

  datatype Instructor = Instructor(instructorId: string, name: string, bio: Option<string>)

  datatype Course = Course(
    courseId: string,
    title: string,
    description: string,
    instructorId: string,
    detail: Option<CourseDetail>)

  datatype EnrollmentStatus = Active | Completed | Cancelled

  datatype Enrollment = Enrollment(
    enrollmentId: string,
    learnerId: string,
    courseId: string,
    enrollmentDate: int,
    status: EnrollmentStatus)

  /** A rating; pydantic admits only values 1..5 (`RatingValue`). */
  datatype Rating = Rating(value: int, commentCategory: string)

  predicate ValidRating(r: Rating)
  {
    1 <= r.value <= 5
  }

  datatype Feedback = Feedback(
    feedbackId: string,
    learnerId: string,
    courseId: string,
    comment: string,
    rating: Rating)

  datatype ProgressStatus = InProgress | ProgressCompleted | OnHold

  /** Learning progress, without the floating-point `completion_rate`. */
  datatype LearningProgress = LearningProgress(
    progressId: string,
    learnerId: string,
    courseId: string,
    lastAccessed: int,
    status: ProgressStatus)

  datatype LearningRecord = LearningRecord(
    recordId: string,
    learnerId: string,
    completedCourseIds: seq<string>,
    ongoingCourseIds: seq<string>,
    enrollmentIds: seq<string>)

  datatype Recommendation = Recommendation(
    recommendationId: string,
    learnerId: string,
    courseIds: seq<string>,
    generatedDate: int)
}
