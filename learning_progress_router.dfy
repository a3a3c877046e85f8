/** The learning-progress router (app/api/learning_progress_router.py). */
module LearningProgressRouter {
  import opened Outcomes
  import opened Domain
  import opened Stores

  /** The id a progress entry is filed under: its `progress_id`. */
  function IdOf(x: LearningProgress): (id: string)
  {
    x.progressId
  }

  /** The router's module-level dict, empty at start-up. */
  method NewLearningProgressStore() returns (progressStore: Store<LearningProgress>)
    ensures fresh(progressStore) && progressStore.Valid()
    ensures progressStore.duplicateDetail == "Progress already exists" && progressStore.missingDetail == "Progress not found"
    ensures progressStore.entries == map[] && progressStore.order == []
  {
    progressStore := new Store<LearningProgress>("Progress already exists", "Progress not found");
  }

  /** `POST /progress/`: insert unless the id is taken. */
  method CreateProgress(progressStore: Store<LearningProgress>, progress: LearningProgress) returns (r: Result<LearningProgress>)
    requires progressStore.Valid() && progressStore.duplicateDetail == "Progress already exists"
    modifies progressStore
    ensures progressStore.Valid()
    ensures progress.progressId in old(progressStore.entries) ==>
      && r == Err(HttpError(400, "Progress already exists"))
      && progressStore.entries == old(progressStore.entries) && progressStore.order == old(progressStore.order)
    ensures progress.progressId !in old(progressStore.entries) ==>
      && r == Ok(progress)
      && progressStore.entries == old(progressStore.entries)[progress.progressId := progress]
      && progressStore.order == old(progressStore.order) + [progress.progressId]
    ensures KeyedBy(old(progressStore.entries), IdOf) ==> KeyedBy(progressStore.entries, IdOf)
  {
    r := progressStore.Create(progress.progressId, progress);
  }

  /** `GET /progress/`: every stored progress entry, in insertion order; reads only. */
  method ListProgress(progressStore: Store<LearningProgress>) returns (r: seq<LearningProgress>)
    requires progressStore.Valid()
    ensures ListsInOrder(r, progressStore.entries, progressStore.order)
  {
    r := progressStore.List();
  }

  /** `GET /progress/{progress_id}`: the stored progress entry or 404; reads only. */
  method GetProgress(progressStore: Store<LearningProgress>, progressId: string) returns (r: Result<LearningProgress>)
    requires progressStore.Valid() && progressStore.missingDetail == "Progress not found"
    ensures progressId in progressStore.entries ==> r == Ok(progressStore.entries[progressId])
    ensures progressId !in progressStore.entries ==> r == Err(HttpError(404, "Progress not found"))
    ensures r.Ok? && KeyedBy(progressStore.entries, IdOf) ==> r.value.progressId == progressId
  {
    r := progressStore.Get(progressId);
  }
}
