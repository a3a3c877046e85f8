/** The learner router (app/api/learner_router.py); its store is also the credential store that authentication reads. */
module LearnerRouter {
  import opened Outcomes
  import opened Domain
  import opened Stores

  /** The id a learner is filed under: its `learner_id`. */
  function IdOf(x: Learner): (id: string)
  {
    x.learnerId
  }

  /** The router's module-level dict, empty at start-up. */
  method NewLearnerStore() returns (learners: Store<Learner>)
    ensures fresh(learners) && learners.Valid()
    ensures learners.duplicateDetail == "Learner already exists" && learners.missingDetail == "Learner not found"
    ensures learners.entries == map[] && learners.order == []
  {
    learners := new Store<Learner>("Learner already exists", "Learner not found");
  }

  /** `POST /learners/`: insert unless the id is taken. */
  method CreateLearner(learners: Store<Learner>, learner: Learner) returns (r: Result<Learner>)
    requires learners.Valid() && learners.duplicateDetail == "Learner already exists"
    modifies learners
    ensures learners.Valid()
    ensures learner.learnerId in old(learners.entries) ==>
      && r == Err(HttpError(400, "Learner already exists"))
      && learners.entries == old(learners.entries) && learners.order == old(learners.order)
    ensures learner.learnerId !in old(learners.entries) ==>
      && r == Ok(learner)
      && learners.entries == old(learners.entries)[learner.learnerId := learner]
      && learners.order == old(learners.order) + [learner.learnerId]
    ensures KeyedBy(old(learners.entries), IdOf) ==> KeyedBy(learners.entries, IdOf)
  {
    r := learners.Create(learner.learnerId, learner);
  }

  /** `GET /learners/`: every stored learner, in insertion order; reads only. */
  method ListLearners(learners: Store<Learner>) returns (r: seq<Learner>)
    requires learners.Valid()
    ensures ListsInOrder(r, learners.entries, learners.order)
  {
    r := learners.List();
  }

  /** `GET /learners/{learner_id}`: the stored learner or 404; reads only. */
  method GetLearner(learners: Store<Learner>, learnerId: string) returns (r: Result<Learner>)
    requires learners.Valid() && learners.missingDetail == "Learner not found"
    ensures learnerId in learners.entries ==> r == Ok(learners.entries[learnerId])
    ensures learnerId !in learners.entries ==> r == Err(HttpError(404, "Learner not found"))
    ensures r.Ok? && KeyedBy(learners.entries, IdOf) ==> r.value.learnerId == learnerId
  {
    r := learners.Get(learnerId);
  }

  /** The duplicate check looks only at `learner_id`: two learners with
      different ids are both stored even when their emails are equal. */
  method CreateSameEmail(learners: Store<Learner>, a: Learner, b: Learner) returns (ra: Result<Learner>, rb: Result<Learner>)
    requires learners.Valid() && learners.duplicateDetail == "Learner already exists"
    requires a.email == b.email && a.learnerId != b.learnerId
    requires a.learnerId !in learners.entries && b.learnerId !in learners.entries
    modifies learners
    ensures ra == Ok(a) && rb == Ok(b)
    ensures learners.entries == old(learners.entries)[a.learnerId := a][b.learnerId := b]
  {
    ra := CreateLearner(learners, a);
    rb := CreateLearner(learners, b);
  }
}
