/** POST /api/workouts/move: re-date a day's weekly log entries and its daily
    record. */
module WorkoutsMove {
  import opened Wrappers
  import opened Seqs
  import opened Http
  import opened Store

  datatype MoveRequest = MoveRequest(fromDate: Field, toDate: Field)

  datatype Moved = Moved(message: string, movedWorkouts: nat)

  const MissingFieldsMessage: string := "Both fromDate and toDate are required"

  /** The query filter `Date equals date` over live pages. */
  predicate OnDate(date: string, p: WeeklyPage)
  {
    !p.archived && p.date == Some(date)
  }

  function OnDateOf(date: string): WeeklyPage -> bool
  {
    (p: WeeklyPage) => OnDate(date, p)
  }

  function DailyOn(date: string): DailyPage -> bool
  {
    (d: DailyPage) => d.date == Some(date)
  }

  /** The weekly log after the move: the entries on `from` dated `to`. */
  function MoveWeekly(weekly: seq<WeeklyPage>, from: string, to: string): (r: seq<WeeklyPage>)
    ensures |r| == |weekly|
  {
    seq(|weekly|, i requires 0 <= i < |weekly| =>
      if OnDate(from, weekly[i]) then weekly[i].(date := Some(to)) else weekly[i])
  }

  /** The daily log after the move: only the first record on `from` moves. */
  function MoveDaily(daily: seq<DailyPage>, from: string, to: string): (r: seq<DailyPage>)
    ensures |r| == |daily|
  {
    match FirstIndex(daily, DailyOn(from))
      case None => daily
      case Some(k) => daily[k := daily[k].(date := Some(to))]
  }

  function MovedMessage(from: string, to: string): string
  {
    "Moved workout from " + from + " to " + to
  }

  /** The handler. The count is that of the weekly entries found on `from`;
      a day without a daily record still moves its weekly entries. */
  method MoveWorkouts(ws: Workspace, req: MoveRequest) returns (resp: Response<Moved>)
    requires ws.Valid()
    modifies ws
    ensures ws.Valid()
    ensures !(req.fromDate.Truthy() && req.toDate.Truthy()) ==>
              resp == Error(BadRequest, MissingFieldsMessage) && ws.weekly == old(ws.weekly) && ws.daily == old(ws.daily)
    ensures req.fromDate.Truthy() && req.toDate.Truthy() ==>
              && resp == Ok(Moved(MovedMessage(req.fromDate.s, req.toDate.s), Count(old(ws.weekly), OnDateOf(req.fromDate.s))))
              && ws.weekly == MoveWeekly(old(ws.weekly), req.fromDate.s, req.toDate.s)
              && ws.daily == MoveDaily(old(ws.daily), req.fromDate.s, req.toDate.s)
  {
    if !(req.fromDate.Truthy() && req.toDate.Truthy()) {
      return Error(BadRequest, MissingFieldsMessage);
    }
    var from, to := req.fromDate.s, req.toDate.s;
    var found := MatchingIds(ws.weekly, OnDateOf(from));
    MatchingIdsExactly(ws.weekly, OnDateOf(from));
    UpdateEachWeekly(ws, found, RedateWeekly(to));
    var first := FirstIndex(ws.daily, DailyOn(from));
    if first.Some? {
      UpdateDailyAt(ws.daily, first.value, RedateDaily(to));
      UpdateDailyKeepsIds(ws.daily, ws.daily[first.value].id, RedateDaily(to));
      ws.daily := UpdateDaily(ws.daily, ws.daily[first.value].id, RedateDaily(to));
    }
    resp := Ok(Moved(MovedMessage(from, to), |found|));
  }

  /** Only the Date property changes: every other field of every entry is as
      it was. */
  lemma MoveChangesOnlyDates(weekly: seq<WeeklyPage>, from: string, to: string)
    ensures forall i :: 0 <= i < |weekly| ==>
              MoveWeekly(weekly, from, to)[i] == weekly[i].(date := MoveWeekly(weekly, from, to)[i].date)
    ensures forall i :: 0 <= i < |weekly| ==>
              MoveWeekly(weekly, from, to)[i].date == if OnDate(from, weekly[i]) then Some(to) else weekly[i].date
  {
  }

  /** The move is additive: afterwards the entries on `to` are those that were
      on `from` together with those already on `to`, and none is left on
      `from`. */
  lemma MoveIsAdditive(weekly: seq<WeeklyPage>, from: string, to: string)
    requires from != to
    ensures forall i :: 0 <= i < |weekly| ==>
              (OnDate(to, MoveWeekly(weekly, from, to)[i]) <==> OnDate(from, weekly[i]) || OnDate(to, weekly[i]))
    ensures forall i :: 0 <= i < |weekly| ==> !OnDate(from, MoveWeekly(weekly, from, to)[i])
  {
  }

  /** Counting: the day `to` ends up with its own entries plus the moved ones. */
  lemma {:induction false} MoveCount(weekly: seq<WeeklyPage>, from: string, to: string)
    requires from != to
    ensures Count(MoveWeekly(weekly, from, to), OnDateOf(to)) == Count(weekly, OnDateOf(from)) + Count(weekly, OnDateOf(to))
    ensures Count(MoveWeekly(weekly, from, to), OnDateOf(from)) == 0
    decreases |weekly|
  {
    if weekly != [] {
      var m := MoveWeekly(weekly, from, to);
      MoveCount(weekly[1..], from, to);
      assert m[1..] == MoveWeekly(weekly[1..], from, to);
      assert OnDateOf(to)(m[0]) <==> OnDateOf(from)(weekly[0]) || OnDateOf(to)(weekly[0]);
      assert !OnDateOf(from)(m[0]);
    }
  }

  /** Only the first daily record on `from` moves; any later ones stay. */
  lemma MoveDailyFirstOnly(daily: seq<DailyPage>, from: string, to: string, k: nat)
    requires k < |daily| && daily[k].date == Some(from)
    requires forall j :: 0 <= j < k ==> daily[j].date != Some(from)
    ensures MoveDaily(daily, from, to)[k] == daily[k].(date := Some(to))
    ensures forall i :: 0 <= i < |daily| && i != k ==> MoveDaily(daily, from, to)[i] == daily[i]
  {
    assert DailyOn(from)(daily[k]);
    assert FirstIndex(daily, DailyOn(from)) == Some(k);
  }

  /** Without a daily record on `from` the daily log is unchanged. */
  lemma MoveDailyWithoutRecord(daily: seq<DailyPage>, from: string, to: string)
    requires forall j :: 0 <= j < |daily| ==> daily[j].date != Some(from)
    ensures MoveDaily(daily, from, to) == daily
  {
  }
}
