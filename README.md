# Lernex API core: entity stores and authentication, in Dafny

This project models the sequential core of the Lernex learning-platform
backend, a FastAPI application. There are two parts.

1. **Keyed in-memory stores.** Seven routers each keep a module-level
   `Dict[str, T]`: learners, courses, enrollments, feedback, learning
   progress, learning records and recommendations. Every router has the same
   three handlers:
   - `create_*` stores an entity under its own id. If the id is already
     present it fails with 400 "<Entity> already exists".
   - `get_*` returns the stored entity, or fails with 404
     "<Entity> not found".
   - `list_*` returns all stored values in insertion order.

   `Stores.Store<T>` is one generic class: a map from id to entity plus
   the insertion-ordered key sequence, with `Create`, `Get` and `List`.
   Each router module (`LearnerRouter`, `CourseRouter`, ...) builds its own
   store with its own detail messages and wraps those three methods.
   Each wrapper keys the entity by its own id field (the router's `IdOf`).
   Each create preserves the invariant `Stores.KeyedBy(entries, IdOf)`:
   every entry is filed under its own id.
2. **Authentication** (`AuthRouter`):
   - Token minting (`create_access_token`).
   - The credential scan (`authenticate_learner`) over the learner store.
   - The login endpoint (`POST /auth/token`).
   - The session guard (`get_current_learner`).

   The JWT codec (HS256 under a fixed secret) is a `Codec` value holding
   an `encode` and a `decode` function. The password check is a
   `verify(plaintext, hash)` function. Both are parameters. The proofs
   assume two things of the codec, and each lemma requires only the one it
   needs:
   - `AcceptsLoginTokens`: a token minted over the claim set login signs
     (a string `sub` and a numeric `exp`) decodes to exactly that claim set
     up to its `exp` second, and fails afterwards.
   - `RejectsExpired`: no minted token whose numeric `exp` has passed
     decodes.

   Both hold of python-jose's defaults. Neither says anything about other
   claim sets (python-jose also rejects, for example, a non-string `sub` or
   a future `nbf`) or about strings the codec did not mint.

The main results:
- Login followed by the guard on the issued token yields the learner who
  logged in, while the token is unexpired (`AuthRouter.LoginThenGuard`,
  `AuthRouter.IssuedTokenResolves`).
- Expired tokens are rejected.
- Every failure of the guard is the single "Could not validate credentials"
  error.
- With the corrected credential scan, every failed login is the single
  "Incorrect email or password" error. The code as written does not achieve
  this: a registered email ends in a 500 and an unknown one in the 401 (see
  Findings).
- The scan returns the first match in insertion order.
- The guard is a function of the token and the store, so it cannot change
  the store.

The tests in `tests/test_api/test_auth.py` call `/auth/register`,
`/auth/login` and `/auth/me`. None of these endpoints exists in
`app/api/auth_router.py`, which has only `POST /auth/token`, and
`app/main.py:17-23` does not mount the auth router. The model follows the
code.

## Model

| member | source | states |
|---|---|---|
| Stores.Store.Create | app/api/learner_router.py:13-17 | Shared by all seven routers. A taken key gives 400 with the store's duplicate detail and leaves map and order unchanged. A fresh key returns the item, adds exactly that entry, and appends the key to the insertion order, so the listing gains the item at its end. |
| Stores.Store.Get | app/api/learner_router.py:26-30 | Shared by all seven routers. Ok with the stored value exactly when the key is present, otherwise 404 with the store's missing detail. No modifies clause, so it cannot mutate. |
| Stores.Store.List | app/api/learner_router.py:21-22 | Shared by all seven routers. The result has one element per key: its length equals the store size, element i is the value of the i-th inserted key, and every stored value occurs in it. |
| Stores.DistinctEnumerationSize | app/api/learner_router.py:22 | A duplicate-free key order that enumerates the key set has exactly as many elements as the store, so the listing's length is the store size. |
| Stores.ValuesAfterInsert | app/api/learner_router.py:16-22 | Inserting a fresh key appends its value to the end of the listing; earlier values keep their positions. |
| LearnerRouter.NewLearnerStore | app/api/learner_router.py:9 | The learner dict starts empty and carries the "Learner already exists" / "Learner not found" details. |
| LearnerRouter.CreateLearner | app/api/learner_router.py:12-17 | A present `learner_id` gives 400 "Learner already exists" with no change. Otherwise the learner is stored under its id and returned; every other entry is unchanged. Entries stay filed under their own ids. |
| LearnerRouter.ListLearners | app/api/learner_router.py:20-22 | Returns exactly the stored learners, one per key, in insertion order. |
| LearnerRouter.GetLearner | app/api/learner_router.py:25-30 | The stored learner for a present id, else 404 "Learner not found". A learner it returns has the requested id. Read-only. |
| LearnerRouter.CreateSameEmail | app/api/learner_router.py:14 | The duplicate check keys only on `learner_id`: two learners with equal emails and different fresh ids are both accepted and stored. |
| CourseRouter.NewCourseStore | app/api/course_router.py:9 | The course dict starts empty, with the course detail messages. |
| CourseRouter.CreateCourse | app/api/course_router.py:12-17 | An existing `course_id` gives 400 "Course already exists" with no change. A fresh id inserts only that entry and returns the course. |
| CourseRouter.ListCourses | app/api/course_router.py:20-22 | Returns all stored courses, one per key, in insertion order. |
| CourseRouter.GetCourse | app/api/course_router.py:25-30 | The stored course, else 404 "Course not found". Read-only. |
| CourseRouter.CreateThenGet | app/api/course_router.py:16-30 | A get after a successful create with the same id returns that course. After a rejected create, the get returns the course stored before. |
| EnrollmentRouter.NewEnrollmentStore | app/api/enrollment_router.py:9 | The enrollment dict starts empty, with the enrollment detail messages. |
| EnrollmentRouter.CreateEnrollment | app/api/enrollment_router.py:12-17 | An existing `enrollment_id` gives 400 "Enrollment already exists" with no change. A fresh id adds exactly one entry keyed by `enrollment_id` and returns it. |
| EnrollmentRouter.ListEnrollments | app/api/enrollment_router.py:20-22 | Returns all stored enrollments in insertion order, without mutation. |
| EnrollmentRouter.GetEnrollment | app/api/enrollment_router.py:25-30 | The stored enrollment, else 404 "Enrollment not found". |
| FeedbackRouter.NewFeedbackStore | app/api/feedback_router.py:9 | The feedback dict starts empty, with the feedback detail messages. |
| FeedbackRouter.CreateFeedback | app/api/feedback_router.py:12-17 | Accepts only feedback whose rating is in 1..5, since validation runs before the handler. An existing `feedback_id` gives 400 "Feedback already exists" with no change. A fresh id inserts only that entry. Every stored rating stays in 1..5. |
| FeedbackRouter.ListFeedback | app/api/feedback_router.py:20-22 | Returns all stored feedback in insertion order. |
| FeedbackRouter.GetFeedback | app/api/feedback_router.py:25-30 | The stored feedback, else 404 "Feedback not found". |
| FeedbackRouter.GetHasValidRating | app/domain/feedback.py:5-8 | In a store where every rating is valid, feedback that get returns has a rating value between 1 and 5. |
| LearningProgressRouter.NewLearningProgressStore | app/api/learning_progress_router.py:9 | The progress dict starts empty, with the progress detail messages. |
| LearningProgressRouter.CreateProgress | app/api/learning_progress_router.py:12-17 | An existing `progress_id` gives 400 "Progress already exists" with no change. A fresh id inserts only that entry and returns it. |
| LearningProgressRouter.ListProgress | app/api/learning_progress_router.py:20-22 | Returns all stored progress values in insertion order, without mutation. |
| LearningProgressRouter.GetProgress | app/api/learning_progress_router.py:25-30 | The stored progress, else 404 "Progress not found". |
| LearningRecordRouter.NewLearningRecordStore | app/api/learning_record_router.py:9 | The record dict starts empty, with the record detail messages. |
| LearningRecordRouter.CreateRecord | app/api/learning_record_router.py:12-17 | An existing `record_id` gives 400 "Record already exists" with no change. A fresh id inserts only that entry and returns it. |
| LearningRecordRouter.ListRecords | app/api/learning_record_router.py:20-22 | Returns all stored records in insertion order, without mutation. |
| LearningRecordRouter.GetRecord | app/api/learning_record_router.py:25-30 | The stored record, else 404 "Record not found". |
| RecommendationRouter.NewRecommendationStore | app/api/recommendation_router.py:9 | The recommendation dict starts empty, with the recommendation detail messages. |
| RecommendationRouter.CreateRecommendation | app/api/recommendation_router.py:12-19 | An existing `recommendation_id` gives 400 "Recommendation already exists" with no change. A fresh id inserts only that entry and returns it unchanged, `course_ids` included. |
| RecommendationRouter.ListRecommendations | app/api/recommendation_router.py:22-24 | Returns all stored recommendations in insertion order, without mutation. |
| RecommendationRouter.GetRecommendation | app/api/recommendation_router.py:27-32 | The stored recommendation, else 404 "Recommendation not found". |
| AuthRouter.ExpiresIn | app/api/auth_router.py:36-38 | The token lifetime is never zero. It is positive exactly when no delta or a non-negative delta is given. A non-zero delta is used as given. No delta, or a zero (falsy) one, gives 30 minutes. |
| AuthRouter.ToEncode | app/api/auth_router.py:35-39 | The signed claims are the caller's claims plus `exp = now + lifetime`, with every other claim kept. They are already expired at `now` exactly when a negative delta was given. |
| AuthRouter.CreateAccessToken | app/api/auth_router.py:31-41 | The token is the codec's encoding of the claims `ToEncode` builds. For a codec that accepts login tokens, a token over a lone string `sub` decodes at minting time to exactly those claims, unless the delta is negative. For a codec that rejects expired tokens, a token minted with a negative delta is already rejected when it is minted. |
| AuthRouter.AccessTokenLifetime | app/api/auth_router.py:31-41 | For a codec that accepts login tokens, a token minted over `{sub}` signs exactly `{sub, exp}`. It decodes to that claim set up to `exp`, and fails to decode afterwards. |
| AuthRouter.FirstMatchIsFirst | app/api/auth_router.py:49-51 | A learner the scan returns is in the store order, and both its email and its password match. No earlier learner matches: when several match, the first in insertion order wins. |
| AuthRouter.FirstMatchNone | app/api/auth_router.py:49-52 | The scan returns None exactly when no stored learner matches both email and password. |
| AuthRouter.AuthenticateLearner | app/api/auth_router.py:44-52 | The loop with early return computes the first match over the store's values in insertion order. It reads only. |
| AuthRouter.FirstMatchIsStored | app/api/auth_router.py:49-51 | In a learner store keyed by id, a learner the scan finds is the one stored under its own `learner_id`. |
| AuthRouter.LoginForAccessToken | app/api/auth_router.py:55-72 | Built on the corrected scan. Fails exactly when the scan finds no one, with the same 401 "Incorrect email or password" whether the email is unknown or the password is wrong. On success: `token_type == "bearer"`, and the token is minted over `{sub: learner_id}` with the default lifetime. |
| AuthRouter.GetCurrentLearner | app/api/auth_router.py:75-96 | Every failure (undecodable or expired token, missing or non-string `sub`, `sub` not stored) is the single 401 "Could not validate credentials". Otherwise the result is the learner stored under `sub`. |
| AuthRouter.IssuedTokenResolves | app/api/auth_router.py:71-96 | For a codec that accepts login tokens, a token issued for a stored learner passes the guard at any time up to its expiry, and the guard returns that learner. |
| AuthRouter.ExpiredTokenRejected | app/api/auth_router.py:84-90 | For a codec that rejects expired tokens, a minted token whose `exp` has passed is rejected with the credentials error, whatever its other claims. |
| AuthRouter.LoginThenGuard | app/api/auth_router.py:63-96 | For a codec that accepts login tokens, login followed by the guard on the issued token succeeds exactly when the credentials match. It then yields the learner who logged in, and it changes nothing. |
| AuthAsWritten.AuthenticateAsWritten | app/api/auth_router.py:49-52 | As written, the scan raises exactly when some stored learner has the given email, and otherwise returns None. It never authenticates anyone. |
| AuthAsWritten.LoginAsWritten | app/api/auth_router.py:63-72 | Login on top of the scan as written never succeeds. It answers 500 exactly when some stored learner has the given email, and otherwise answers the generic 401. |
| AuthAsWritten.AsWrittenLoginRevealsAccounts | app/api/auth_router.py:50-69 | As written, a wrong password for a stored email gets 500 while an unknown email gets 401, so the response reveals which emails are registered. |
| AuthAsWritten.RegisteredLearnerCannotLogIn | app/api/auth_router.py:50 | Take a stored learner and their correct password. The scan as written raises AttributeError, while the corrected scan returns that learner. |

## Left out

- JWT signing and verification (python-jose, HS256, `SECRET_KEY`, `ALGORITHM`, base64url): foreign code. The codec is a parameter. `AcceptsLoginTokens` and `RejectsExpired` state the only assumptions. Tampered tokens, and the decoder's other claim checks (`nbf`, `aud`, a non-string `sub`, `int()` applied to a string `exp`), are left unconstrained.
- Password hashing: the code has none. The password check is the parameter `verify(plaintext, password_hash)`.
- Clocks: `datetime.utcnow()` becomes a parameter `now`. Times are whole seconds, as in a JWT `exp`. Sub-second parts of a `timedelta` are not modelled.
- FastAPI plumbing: routing, `Depends`, the `OAuth2PasswordBearer` header extraction (its "Not authenticated" 401 when the header is missing), the `WWW-Authenticate` response headers, `app/main.py` mounting, and turning an uncaught AttributeError into a 500 response.
- Pydantic validation other than the rating range: `EmailStr` format checks and 422 responses for malformed bodies. The `uuid4` and `datetime` default factories are left out; ids and timestamps are inputs.
- `LearningProgress.completion_rate`: a float, not modelled.
- `if not course:` in the getters: pydantic models are always truthy, so the test is modelled as key absence.
- `app/storage.py`: static seed data in dicts that no router uses. It also imports classes that `app/domain/course.py` lacks.
- Concurrency on the shared dicts: nothing in the code addresses it.
- AuthRouter.ExpiresIn: the delta is an unbounded whole number of seconds. The OverflowError that `datetime.utcnow() + expires_delta` raises when the sum leaves datetime's range (years 1 to 9999, e.g. `timedelta(days=-800000)`) is not modelled, so the model mints a token where the code raises. Login passes no delta, so it is unaffected.
- AuthRouter.LoginForAccessToken: built on the corrected scan. Its single-401 promise does not hold of the code as written, which answers 500 for every registered email; `AuthAsWritten.LoginAsWritten` models that.
- AuthRouter.AuthenticateLearner: models the corrected credential test (`verify` against `password_hash`), not the `learner.password` read the code has. The code as written is modelled by `AuthAsWritten.AuthenticateAsWritten` (see Findings).

## Findings

| source | as written | input that shows it | evidently intended | confidence | as-written member | corrected member |
|---|---|---|---|---|---|---|
| app/api/auth_router.py:50 | `learner.email == email and learner.password == password`, but `Learner` (app/domain/user.py:24-30) has no `password` field, only `password_hash` | a store holding learner "l-1" with email "ann@x.com", login with "ann@x.com" and the correct password: the read of `learner.password` raises AttributeError, so login never succeeds for any registered email. A wrong password for a registered email also ends in 500, while an unknown email gets 401, so the response reveals which emails are registered | compare the given password with `password_hash` through the password verifier | high; not executed | AuthAsWritten.LoginAsWritten | AuthRouter.AuthenticateLearner |
