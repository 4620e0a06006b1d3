/** POST /api/workouts/delete: archive one entry by page id, or every entry of
    an exercise on a date. */
module WorkoutsDelete {
  import opened Wrappers
  import opened Seqs
  import opened Http
  import opened Store

  datatype DeleteRequest = DeleteRequest(date: Field, exerciseId: Field, pageId: Field)

  const MissingFieldsMessage: string := "Either pageId or (date and exerciseId) are required"
  const FailureMessage: string := "Failed to delete workout"

  /** The query filter: dated `date` (equality) and related to the exercise;
      the store's queries only see live pages. */
  predicate Matches(date: string, exerciseId: string, p: WeeklyPage)
  {
    !p.archived && p.date == Some(date) && RelationContains(p.exercises, exerciseId)
  }

  function MatchesOf(date: string, exerciseId: string): WeeklyPage -> bool
  {
    (p: WeeklyPage) => Matches(date, exerciseId, p)
  }

  /** The log after deleting by date and exercise: every match archived,
      every other page as it was. */
  function ArchiveMatches(weekly: seq<WeeklyPage>, date: string, exerciseId: string): (r: seq<WeeklyPage>)
    ensures |r| == |weekly|
    ensures forall i :: 0 <= i < |weekly| ==> r[i] == if Matches(date, exerciseId, weekly[i]) then Archive(weekly[i]) else weekly[i]
  {
    seq(|weekly|, i requires 0 <= i < |weekly| =>
      if Matches(date, exerciseId, weekly[i]) then Archive(weekly[i]) else weekly[i])
  }

  /** The handler. A page id takes precedence over date and exercise; an
      unknown page id makes the store's update throw. Zero matches is still a
      success. */
  method DeleteWorkout(ws: Workspace, req: DeleteRequest) returns (resp: Response<string>)
    requires ws.Valid()
    modifies ws
    ensures ws.Valid() && ws.daily == old(ws.daily)
    ensures req.pageId.Truthy() && req.pageId.s in WeeklyIds(old(ws.weekly)) ==>
              && resp == Ok("Deleted workout entry " + req.pageId.s)
              && |ws.weekly| == |old(ws.weekly)|
              && forall i :: 0 <= i < |ws.weekly| ==>
                   ws.weekly[i] == if old(ws.weekly)[i].id == req.pageId.s then Archive(old(ws.weekly)[i]) else old(ws.weekly)[i]
    ensures req.pageId.Truthy() && req.pageId.s !in WeeklyIds(old(ws.weekly)) ==>
              resp == Error(ServerError, FailureMessage) && ws.weekly == old(ws.weekly)
    ensures !req.pageId.Truthy() && !(req.date.Truthy() && req.exerciseId.Truthy()) ==>
              resp == Error(BadRequest, MissingFieldsMessage) && ws.weekly == old(ws.weekly)
    ensures !req.pageId.Truthy() && req.date.Truthy() && req.exerciseId.Truthy() ==>
              && resp == Ok("Deleted workout entry for exercise " + req.exerciseId.s + " on " + req.date.s)
              && ws.weekly == ArchiveMatches(old(ws.weekly), req.date.s, req.exerciseId.s)
  {
    if req.pageId.Truthy() {
      if req.pageId.s !in WeeklyIds(ws.weekly) {
        return Error(ServerError, FailureMessage);
      }
      UpdateWeeklyKeepsIds(ws.weekly, req.pageId.s, Archive);
      ws.weekly := UpdateWeekly(ws.weekly, req.pageId.s, Archive);
      return Ok("Deleted workout entry " + req.pageId.s);
    }
    if !(req.date.Truthy() && req.exerciseId.Truthy()) {
      return Error(BadRequest, MissingFieldsMessage);
    }
    var matches := MatchingIds(ws.weekly, MatchesOf(req.date.s, req.exerciseId.s));
    MatchingIdsExactly(ws.weekly, MatchesOf(req.date.s, req.exerciseId.s));
    UpdateEachWeekly(ws, matches, Archive);
    resp := Ok("Deleted workout entry for exercise " + req.exerciseId.s + " on " + req.date.s);
  }

  /** Afterwards no live entry of that exercise is left on that date. */
  lemma NoMatchLeft(weekly: seq<WeeklyPage>, date: string, exerciseId: string)
    ensures forall i :: 0 <= i < |weekly| ==> !Matches(date, exerciseId, ArchiveMatches(weekly, date, exerciseId)[i])
  {
  }

  /** Deleting the same date and exercise twice is deleting once. */
  lemma DeleteIsIdempotent(weekly: seq<WeeklyPage>, date: string, exerciseId: string)
    ensures ArchiveMatches(ArchiveMatches(weekly, date, exerciseId), date, exerciseId) == ArchiveMatches(weekly, date, exerciseId)
  {
  }

  predicate IsLive(p: WeeklyPage) { !p.archived }

  /** The log loses exactly as many live entries as there were matches. */
  lemma {:induction false} DeleteCount(weekly: seq<WeeklyPage>, date: string, exerciseId: string)
    ensures Count(ArchiveMatches(weekly, date, exerciseId), IsLive) + Count(weekly, MatchesOf(date, exerciseId)) == Count(weekly, IsLive)
    decreases |weekly|
  {
    if weekly != [] {
      DeleteCount(weekly[1..], date, exerciseId);
      assert ArchiveMatches(weekly, date, exerciseId)[1..] == ArchiveMatches(weekly[1..], date, exerciseId);
    }
  }
}
