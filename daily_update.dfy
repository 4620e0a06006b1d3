/** POST /api/daily-workouts/update: set the Completed flag of a day's daily
    record. */
module DailyUpdate {
  import opened Wrappers
  import opened Seqs
  import opened Http
  import opened Store

  /** The request body; `completed` is any JSON value, or absent. */
  datatype UpdateRequest = UpdateRequest(date: Field, completed: Option<Json>)

  const MissingDateMessage: string := "Date is required"
  const NotFoundMessage: string := "Daily workout entry not found for this date"
  const DoneMessage: string := "Daily workout marked as completed"

  function DailyOn(date: string): DailyPage -> bool
  {
    (d: DailyPage) => d.date == Some(date)
  }

  /** `completed === true`: only the JSON value true counts. */
  predicate CompletedFlag(completed: Option<Json>)
  {
    completed == Some(JBool(true))
  }

  function SetCompleted(flag: bool): DailyPage -> DailyPage
  {
    (d: DailyPage) => d.(completed := flag)
  }

  /** The handler: 400 without a date, 404 (nothing changed) when no record
      has that date, else the first record on that date gets the flag, with
      no other property and no other record touched. */
  method UpdateCompleted(ws: Workspace, req: UpdateRequest) returns (resp: Response<string>)
    requires ws.Valid()
    modifies ws
    ensures ws.Valid() && ws.weekly == old(ws.weekly)
    ensures !req.date.Truthy() ==> resp == Error(BadRequest, MissingDateMessage) && ws.daily == old(ws.daily)
    ensures req.date.Truthy() && FirstIndex(old(ws.daily), DailyOn(req.date.s)).None? ==>
              resp == Error(NotFound, NotFoundMessage) && ws.daily == old(ws.daily)
    ensures req.date.Truthy() && FirstIndex(old(ws.daily), DailyOn(req.date.s)).Some? ==>
              var k := FirstIndex(old(ws.daily), DailyOn(req.date.s)).value;
              && resp == Ok(DoneMessage)
              && |ws.daily| == |old(ws.daily)|
              && ws.daily[k] == old(ws.daily)[k].(completed := CompletedFlag(req.completed))
              && forall i :: 0 <= i < |ws.daily| && i != k ==> ws.daily[i] == old(ws.daily)[i]
  {
    if !req.date.Truthy() {
      return Error(BadRequest, MissingDateMessage);
    }
    var first := FirstIndex(ws.daily, DailyOn(req.date.s));
    if first.None? {
      return Error(NotFound, NotFoundMessage);
    }
    var k := first.value;
    var patch := SetCompleted(CompletedFlag(req.completed));
    UpdateDailyAt(ws.daily, k, patch);
    UpdateDailyKeepsIds(ws.daily, ws.daily[k].id, patch);
    ws.daily := UpdateDaily(ws.daily, ws.daily[k].id, patch);
    resp := Ok(DoneMessage);
  }

  /** The flag written is true exactly for the JSON value true: not for
      "true", 1, null or an absent field. */
  lemma CompletedFlagOnlyForTrue(completed: Option<Json>)
    ensures CompletedFlag(completed) <==> completed.Some? && completed.value.JBool? && completed.value.b
    ensures !CompletedFlag(Some(JString("true"))) && !CompletedFlag(Some(JNumber(1)))
    ensures !CompletedFlag(Some(JNull)) && !CompletedFlag(None)
  {
  }
}
