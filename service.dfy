/** The two handlers sharing one table: what a client observes when it
    submits a record and then lists the table. */
module Service {
  import opened Wrappers
  import opened Store
  import opened Submission
  import opened Query

  /** A valid submission with a new id is created, and the saved row holds
      the four values submitted. A created record is then listed by the
      unfiltered GET, and by the GET filtered on its own origin and on the
      calendar date of its timestamp. A submission that is not created leaves
      the table and every listing as they were. */
  method SubmitThenList(db: Table, body: SubmitBody, datetime: string)
    returns (posted: Response, all: Listing, same: Listing)
    requires db.Valid()
    requires IsIsoTimestamp(datetime)
    modifies db
    ensures db.Valid()
    ensures posted.status == 201 ==>
      && posted.payload.SavedPayload?
      && Validate(body, datetime).Some?
      && posted.payload.data == Validate(body, datetime).value
      && db.rows == old(db.rows) + [posted.payload.data]
    ensures posted.status != 201 ==> db.rows == old(db.rows)
    ensures all == Rendered(db.rows)
    ensures same == Rendered(Matching(db.rows, body.origin, Some(datetime[..10])))
    ensures posted.status == 201 <==>
      Validate(body, datetime).Some? && !HasId(old(db.rows), Validate(body, datetime).value.id)
    ensures posted.status == 201 ==>
      && all.Rendered? && posted.payload.data in all.rows
      && same.Rendered? && posted.payload.data in same.rows
  {
    posted := PostData(db, body, datetime, None);
    all := GetData(db, None, None, None);
    same := GetData(db, body.origin, Some(datetime[..10]), None);
    NoFilterSelectsAll(db.rows, None, None);
    if posted.status == 201 {
      var rec := posted.payload.data;
      assert rec == db.rows[|db.rows| - 1];
      StoredRowIsFound(db.rows, rec);
    }
  }
}
