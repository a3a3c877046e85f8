/** The learning-record router (app/api/learning_record_router.py). */
module LearningRecordRouter {
  import opened Outcomes
  import opened Domain
  import opened Stores

  /** The id a learning record is filed under: its `record_id`. */
  function IdOf(x: LearningRecord): (id: string)
  {
    x.recordId
  }

  /** The router's module-level dict, empty at start-up. */
  method NewLearningRecordStore() returns (records: Store<LearningRecord>)
    ensures fresh(records) && records.Valid()
    ensures records.duplicateDetail == "Record already exists" && records.missingDetail == "Record not found"
    ensures records.entries == map[] && records.order == []
  {
    records := new Store<LearningRecord>("Record already exists", "Record not found");
  }

  /** `POST /learning-records/`: insert unless the id is taken. */
  method CreateRecord(records: Store<LearningRecord>, record: LearningRecord) returns (r: Result<LearningRecord>)
    requires records.Valid() && records.duplicateDetail == "Record already exists"
    modifies records
    ensures records.Valid()
    ensures record.recordId in old(records.entries) ==>
      && r == Err(HttpError(400, "Record already exists"))
      && records.entries == old(records.entries) && records.order == old(records.order)
    ensures record.recordId !in old(records.entries) ==>
      && r == Ok(record)
      && records.entries == old(records.entries)[record.recordId := record]
      && records.order == old(records.order) + [record.recordId]
    ensures KeyedBy(old(records.entries), IdOf) ==> KeyedBy(records.entries, IdOf)
  {
    r := records.Create(record.recordId, record);
  }

  /** `GET /learning-records/`: every stored record, in insertion order; reads only. */
  method ListRecords(records: Store<LearningRecord>) returns (r: seq<LearningRecord>)
    requires records.Valid()
    ensures ListsInOrder(r, records.entries, records.order)
  {
    r := records.List();
  }

  /** `GET /learning-records/{record_id}`: the stored record or 404; reads only. */
  method GetRecord(records: Store<LearningRecord>, recordId: string) returns (r: Result<LearningRecord>)
    requires records.Valid() && records.missingDetail == "Record not found"
    ensures recordId in records.entries ==> r == Ok(records.entries[recordId])
    ensures recordId !in records.entries ==> r == Err(HttpError(404, "Record not found"))
    ensures r.Ok? && KeyedBy(records.entries, IdOf) ==> r.value.recordId == recordId
  {
    r := records.Get(recordId);
  }
}
