/** The recommendation router (app/api/recommendation_router.py). */
module RecommendationRouter {
  import opened Outcomes
  import opened Domain
  import opened Stores

  /** The id a recommendation is filed under: its `recommendation_id`. */
  function IdOf(x: Recommendation): (id: string)
  {
    x.recommendationId
  }

  /** The router's module-level dict, empty at start-up. */
  method NewRecommendationStore() returns (recommendations: Store<Recommendation>)
    ensures fresh(recommendations) && recommendations.Valid()
    ensures recommendations.duplicateDetail == "Recommendation already exists" && recommendations.missingDetail == "Recommendation not found"
    ensures recommendations.entries == map[] && recommendations.order == []
  {
    recommendations := new Store<Recommendation>("Recommendation already exists", "Recommendation not found");
  }

  /** `POST /recommendations/`: insert unless the id is taken. */
  method CreateRecommendation(recommendations: Store<Recommendation>, recommendation: Recommendation) returns (r: Result<Recommendation>)
    requires recommendations.Valid() && recommendations.duplicateDetail == "Recommendation already exists"
    modifies recommendations
    ensures recommendations.Valid()
    ensures recommendation.recommendationId in old(recommendations.entries) ==>
      && r == Err(HttpError(400, "Recommendation already exists"))
      && recommendations.entries == old(recommendations.entries) && recommendations.order == old(recommendations.order)
    ensures recommendation.recommendationId !in old(recommendations.entries) ==>
      && r == Ok(recommendation)
      && recommendations.entries == old(recommendations.entries)[recommendation.recommendationId := recommendation]
      && recommendations.order == old(recommendations.order) + [recommendation.recommendationId]
    ensures KeyedBy(old(recommendations.entries), IdOf) ==> KeyedBy(recommendations.entries, IdOf)
  {
    r := recommendations.Create(recommendation.recommendationId, recommendation);
  }

  /** `GET /recommendations/`: every stored recommendation, in insertion order; reads only. */
  method ListRecommendations(recommendations: Store<Recommendation>) returns (r: seq<Recommendation>)
    requires recommendations.Valid()
    ensures ListsInOrder(r, recommendations.entries, recommendations.order)
  {
    r := recommendations.List();
  }

  /** `GET /recommendations/{recommendation_id}`: the stored recommendation or 404; reads only. */
  method GetRecommendation(recommendations: Store<Recommendation>, recommendationId: string) returns (r: Result<Recommendation>)
    requires recommendations.Valid() && recommendations.missingDetail == "Recommendation not found"
    ensures recommendationId in recommendations.entries ==> r == Ok(recommendations.entries[recommendationId])
    ensures recommendationId !in recommendations.entries ==> r == Err(HttpError(404, "Recommendation not found"))
    ensures r.Ok? && KeyedBy(recommendations.entries, IdOf) ==> r.value.recommendationId == recommendationId
  {
    r := recommendations.Get(recommendationId);
  }
}
