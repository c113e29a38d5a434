/** /api/calorie-log: the parameter checks of GET and POST and the record POST stores. */
module CalorieLog {
  import opened Wrappers
  import opened Http

  /** GET: the entries of one user on one date ("" for a parameter that is absent). */
  datatype LogQuery = LogQuery(userId: string, date: string)

  function ListLog(userId: string, date: string): (r: Outcome<LogQuery>)
    ensures r.Rejected? <==> userId == "" || date == ""
    ensures r.Rejected? ==> r.status == 400 && r.error == "userId et date requis"
    ensures r.Accepted? ==> r.status == 200 && r.value == LogQuery(userId, date)
  {
    if userId == "" || date == "" then Rejected(400, "userId et date requis")
    else Accepted(200, LogQuery(userId, date))
  }

  /**
   * The POST body. mealKcal and dayKcal are Number(...) of the given values, None when the
   * result is not finite; a falsy label is "" (the field is named mealLabel here, label being a Dafny keyword).
   */
  datatype LogBody = LogBody(userId: string, date: string, mealKcal: Option<real>, dayKcal: Option<real>, mealLabel: string)

  /** The record written to the calorieLogs collection, without its server timestamp. */
  datatype LogRecord = LogRecord(userId: string, date: string, mealKcal: real, dayKcal: real, mealLabel: string)

  /** Number.isFinite(x) && x > 0 */
  predicate PositiveFinite(x: Option<real>) {
    x.Some? && x.value > 0.0
  }

  /** label || "Repas" */
  function LabelOr(given: string): (r: string)
    ensures r != ""
    ensures given != "" ==> r == given
  {
    if given != "" then given else "Repas"
  }

  /**
   * POST: the identifiers are checked first, then the two values; an accepted body gives a
   * record with status 201.
   */
  function AddEntry(body: LogBody): (r: Outcome<LogRecord>)
    ensures body.userId == "" || body.date == "" ==> r == Rejected(400, "userId et date requis")
    ensures body.userId != "" && body.date != "" && !(PositiveFinite(body.mealKcal) && PositiveFinite(body.dayKcal))
      ==> r == Rejected(400, "Valeurs invalides")
    ensures r.Accepted? <==> body.userId != "" && body.date != "" && PositiveFinite(body.mealKcal) && PositiveFinite(body.dayKcal)
    ensures r.Accepted? ==> r.status == 201 && r.value.userId == body.userId && r.value.date == body.date
    ensures r.Accepted? ==> r.value.mealKcal == body.mealKcal.value && r.value.dayKcal == body.dayKcal.value
    ensures r.Accepted? ==> r.value.mealLabel == LabelOr(body.mealLabel)
  {
    if body.userId == "" || body.date == "" then Rejected(400, "userId et date requis")
    else if !PositiveFinite(body.mealKcal) || !PositiveFinite(body.dayKcal) then Rejected(400, "Valeurs invalides")
    else Accepted(201, LogRecord(body.userId, body.date, body.mealKcal.value, body.dayKcal.value, LabelOr(body.mealLabel)))
  }

  /** Every stored record has identifiers, positive values and a label. */
  ghost predicate WellFormed(rec: LogRecord) {
    rec.userId != "" && rec.date != "" && rec.mealKcal > 0.0 && rec.dayKcal > 0.0 && rec.mealLabel != ""
  }

  lemma StoredRecordWellFormed(body: LogBody)
    requires AddEntry(body).Accepted?
    ensures WellFormed(AddEntry(body).value)
  {
  }

  /** Both GET and POST reject a request without a user or a date with the same message. */
  lemma SameIdentifierCheck(body: LogBody)
    ensures AddEntry(body).Rejected? && AddEntry(body).error == "userId et date requis"
      <==> ListLog(body.userId, body.date).Rejected?
  {
  }
}
