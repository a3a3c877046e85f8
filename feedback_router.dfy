/** The feedback router (app/api/feedback_router.py). */
module FeedbackRouter {
  import opened Outcomes
  import opened Domain
  import opened Stores

  /** The id a feedback is filed under: its `feedback_id`. */
  function IdOf(x: Feedback): (id: string)
  {
    x.feedbackId
  }

  /** Every stored feedback carries a rating in 1..5. */
  ghost predicate AllRatingsValid(entries: map<string, Feedback>)
  {
    forall k :: k in entries ==> ValidRating(entries[k].rating)
  }

  /** The router's module-level dict, empty at start-up. */
  method NewFeedbackStore() returns (feedbackStore: Store<Feedback>)
    ensures fresh(feedbackStore) && feedbackStore.Valid()
    ensures feedbackStore.duplicateDetail == "Feedback already exists" && feedbackStore.missingDetail == "Feedback not found"
    ensures feedbackStore.entries == map[] && feedbackStore.order == []
  {
    feedbackStore := new Store<Feedback>("Feedback already exists", "Feedback not found");
  }

  /** `POST /feedback/`: insert unless the id is taken. */
  method CreateFeedback(feedbackStore: Store<Feedback>, feedback: Feedback) returns (r: Result<Feedback>)
    requires feedbackStore.Valid() && feedbackStore.duplicateDetail == "Feedback already exists"
    requires ValidRating(feedback.rating)
    modifies feedbackStore
    ensures feedbackStore.Valid()
    ensures feedback.feedbackId in old(feedbackStore.entries) ==>
      && r == Err(HttpError(400, "Feedback already exists"))
      && feedbackStore.entries == old(feedbackStore.entries) && feedbackStore.order == old(feedbackStore.order)
    ensures feedback.feedbackId !in old(feedbackStore.entries) ==>
      && r == Ok(feedback)
      && feedbackStore.entries == old(feedbackStore.entries)[feedback.feedbackId := feedback]
      && feedbackStore.order == old(feedbackStore.order) + [feedback.feedbackId]
    ensures KeyedBy(old(feedbackStore.entries), IdOf) ==> KeyedBy(feedbackStore.entries, IdOf)
    ensures AllRatingsValid(old(feedbackStore.entries)) ==> AllRatingsValid(feedbackStore.entries)
  {
    r := feedbackStore.Create(feedback.feedbackId, feedback);
  }

  /** `GET /feedback/`: every stored feedback, in insertion order; reads only. */
  method ListFeedback(feedbackStore: Store<Feedback>) returns (r: seq<Feedback>)
    requires feedbackStore.Valid()
    ensures ListsInOrder(r, feedbackStore.entries, feedbackStore.order)
  {
    r := feedbackStore.List();
  }

  /** `GET /feedback/{feedback_id}`: the stored feedback or 404; reads only. */
  method GetFeedback(feedbackStore: Store<Feedback>, feedbackId: string) returns (r: Result<Feedback>)
    requires feedbackStore.Valid() && feedbackStore.missingDetail == "Feedback not found"
    ensures feedbackId in feedbackStore.entries ==> r == Ok(feedbackStore.entries[feedbackId])
    ensures feedbackId !in feedbackStore.entries ==> r == Err(HttpError(404, "Feedback not found"))
    ensures r.Ok? && KeyedBy(feedbackStore.entries, IdOf) ==> r.value.feedbackId == feedbackId
  {
    r := feedbackStore.Get(feedbackId);
  }

  /** What `GET /feedback/{feedback_id}` returns after a successful create
      that only validated feedback reached has a rating in 1..5. */
  method GetHasValidRating(feedbackStore: Store<Feedback>, feedbackId: string) returns (r: Result<Feedback>)
    requires feedbackStore.Valid() && feedbackStore.missingDetail == "Feedback not found"
    requires AllRatingsValid(feedbackStore.entries)
    ensures r.Ok? ==> 1 <= r.value.rating.value <= 5
  {
    r := GetFeedback(feedbackStore, feedbackId);
  }
}
