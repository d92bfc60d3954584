/** POST /data: check the three fields, insert the row, and turn the driver's
    answer into a status code and a JSON body. */
module Submission {
  import opened Wrappers
  import opened Text
  import opened Store

  /** The parsed JSON body; each field may be missing or null. */
  datatype SubmitBody = SubmitBody(id: Option<string>, origin: Option<string>, mimeData: Option<string>)

  /** The JSON the handler answers with. */
  datatype Payload =
    | ErrorPayload(error: string)
    | SavedPayload(message: string, data: Record)

  /** A status code and its JSON body. */
  datatype Response = Response(status: int, payload: Payload)

  const MissingFieldsMessage := "Missing required fields (id, origin, mime_data)"
  const SaveFailedMessage := "Failed to save data to the database"
  const SavedMessage := "Data received and saved successfully"

  /** The text a driver message must contain to be taken as a duplicate id. */
  const UniqueFailureText := "UNIQUE constraint failed"

  const ConflictPrefix := "Data with ID '"
  const ConflictSuffix := "' already exists"

  /** The 409 message, which names the rejected id. */
  function ConflictMessage(id: string): string {
    ConflictPrefix + id + ConflictSuffix
  }

  /** The driver error is read as a duplicate id: code 19 and the UNIQUE text. */
  predicate IsUniqueViolation(e: DbError) {
    e.errno == SqliteConstraint && Contains(e.message, UniqueFailureText)
  }

  /** The field-presence check: the row to insert when `id`, `origin` and
      `mime_data` are all truthy, stamped with `datetime`; nothing otherwise. */
  function Validate(body: SubmitBody, datetime: string): (r: Option<Record>)
    ensures r.Some? <==> Truthy(body.id) && Truthy(body.origin) && Truthy(body.mimeData)
    ensures r.Some? ==>
      && r.value.id == body.id.value && r.value.origin == body.origin.value
      && r.value.mimeData == body.mimeData.value && r.value.datetime == datetime
    ensures r.Some? ==> r.value.id != "" && r.value.origin != "" && r.value.mimeData != ""
  {
    if !Truthy(body.id) || !Truthy(body.origin) || !Truthy(body.mimeData) then None
    else Some(Record(body.id.value, body.origin.value, body.mimeData.value, datetime))
  }

  /** The answer to an insert of `rec` that ended with `err`. */
  function InsertResponse(rec: Record, err: Option<DbError>): (r: Response)
    ensures r.status == 201 || r.status == 409 || r.status == 500
    ensures r.status == 201 <==> err.None?
    ensures r.status == 409 <==> err.Some? && IsUniqueViolation(err.value)
    ensures r.status == 201 ==> r.payload == SavedPayload(SavedMessage, rec)
    ensures r.status == 409 ==> r.payload.ErrorPayload? && Contains(r.payload.error, rec.id)
    ensures r.status == 500 ==> r.payload == ErrorPayload(SaveFailedMessage)
  {
    match err
    case None =>
      Response(201, SavedPayload(SavedMessage, rec))
    case Some(e) =>
      if IsUniqueViolation(e) then
        ConflictNamesId(rec.id);
        Response(409, ErrorPayload(ConflictMessage(rec.id)))
      else
        Response(500, ErrorPayload(SaveFailedMessage))
  }

  /** The 409 message contains the id it rejects. */
  lemma ConflictNamesId(id: string)
    ensures Contains(ConflictMessage(id), id)
  {
    var m := ConflictMessage(id);
    assert m[|ConflictPrefix|..|ConflictPrefix| + |id|] == id;
    ContainsAt(m, id, |ConflictPrefix|);
  }

  /** The error the table raises for a repeated id is the one read as a
      duplicate. */
  lemma DuplicateIdIsUniqueViolation()
    ensures IsUniqueViolation(DuplicateIdError)
  {
    var head := "SQLITE_CONSTRAINT: ";
    assert DuplicateIdMessage[|head|..|head| + |UniqueFailureText|] == UniqueFailureText;
    ContainsAt(DuplicateIdMessage, UniqueFailureText, |head|);
  }

  /** Two failed inserts that are not duplicates get the same answer, whatever
      the driver said: no driver detail reaches the client. */
  lemma FailureHidesDriverDetail(rec: Record, e1: DbError, e2: DbError)
    requires !IsUniqueViolation(e1) && !IsUniqueViolation(e2)
    ensures InsertResponse(rec, Some(e1)) == InsertResponse(rec, Some(e2))
    ensures InsertResponse(rec, Some(e1)).payload == ErrorPayload(SaveFailedMessage)
  {
  }

  /** The POST /data handler over the shared table. `datetime` is the clock
      reading taken on entry and `fault` an engine failure other than a
      constraint violation, if any. */
  method PostData(db: Table, body: SubmitBody, datetime: string, fault: Option<DbError>)
    returns (resp: Response)
    requires db.Valid()
    requires fault.Some? ==> fault.value.errno != SqliteConstraint
    modifies db
    ensures db.Valid()
    ensures resp.status == 409 <==>
      Validate(body, datetime).Some? && fault.None? && HasId(old(db.rows), Validate(body, datetime).value.id)
    ensures Validate(body, datetime).None? ==>
      resp == Response(400, ErrorPayload(MissingFieldsMessage)) && db.rows == old(db.rows)
    ensures Validate(body, datetime).Some? ==>
      var rec := Validate(body, datetime).value;
      && (fault.Some? ==>
            resp == InsertResponse(rec, fault) && resp == Response(500, ErrorPayload(SaveFailedMessage))
            && db.rows == old(db.rows))
      && (fault.None? && HasId(old(db.rows), rec.id) ==>
            resp == Response(409, ErrorPayload(ConflictMessage(rec.id))) && db.rows == old(db.rows))
      && (fault.None? && !HasId(old(db.rows), rec.id) ==>
            resp == Response(201, SavedPayload(SavedMessage, rec)) && db.rows == old(db.rows) + [rec])
  {
    var checked := Validate(body, datetime);
    if checked.None? {
      return Response(400, ErrorPayload(MissingFieldsMessage));
    }
    var rec := checked.value;
    var err := db.Insert(rec, fault);
    DuplicateIdIsUniqueViolation();
    resp := InsertResponse(rec, err);
  }

  /** The same id submitted twice against a working engine: the first
      submission is created or conflicts, the second always conflicts, and the
      table keeps a single row for the id, the one first stored. */
  method SubmitTwice(db: Table, first: SubmitBody, second: SubmitBody, t1: string, t2: string)
    returns (r1: Response, r2: Response)
    requires db.Valid()
    requires Truthy(first.id) && Truthy(first.origin) && Truthy(first.mimeData)
    requires Truthy(second.origin) && Truthy(second.mimeData) && second.id == first.id
    modifies db
    ensures db.Valid()
    ensures r2.status == 409
    ensures r1.status == 201 <==> !HasId(old(db.rows), first.id.value)
    ensures r1.status == 201 ==> db.rows == old(db.rows) + [Validate(first, t1).value]
    ensures r1.status != 201 ==> db.rows == old(db.rows)
    ensures |RowsWithId(db.rows, first.id.value)| == 1
  {
    r1 := PostData(db, first, t1, None);
    r2 := PostData(db, second, t2, None);
    assert HasId(db.rows, first.id.value) by {
      if r1.status == 201 {
        assert db.rows[|db.rows| - 1].id == first.id.value;
      }
    }
    UniqueIdNamesOneRow(db.rows, first.id.value);
  }
}
