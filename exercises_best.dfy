/** POST /api/exercises/best: the personal best of each requested exercise. */
module ExercisesBest {
  import opened Wrappers
  import opened Http
  import opened Store

  const MissingIdsMessage: string := "Exercise IDs array is required"

  /** `properties?.best?.number || 0` of the retrieved page, or 0 when the
      retrieval fails. The property read is the lowercase `best`. */
  function BestOf(pages: seq<ExercisePage>, id: string): int
  {
    match FindById(pages, id, ExercisePageId)
      case None => 0
      case Some(p) => OrZero(p.lowercaseBest)
  }

  /** The handler: one key per requested id, each with its best or 0; a failed
      lookup yields 0 for that id and the loop goes on. */
  method FetchBests(ws: Workspace, exerciseIds: ArrayField) returns (resp: Response<map<string, int>>)
    ensures !exerciseIds.Array? ==> resp == Error(BadRequest, MissingIdsMessage)
    ensures exerciseIds.Array? ==>
              && resp.Ok?
              && resp.body.Keys == (set i | 0 <= i < |exerciseIds.items| :: exerciseIds.items[i])
              && forall id :: id in resp.body ==> resp.body[id] == BestOf(ws.exercises, id)
  {
    if !exerciseIds.Array? {
      return Error(BadRequest, MissingIdsMessage);
    }
    var ids := exerciseIds.items;
    var bests: map<string, int> := map[];
    var i := 0;
    while i < |ids|
      invariant 0 <= i <= |ids|
      invariant bests.Keys == set j | 0 <= j < i :: ids[j]
      invariant forall id :: id in bests ==> bests[id] == BestOf(ws.exercises, id)
    {
      var page := FindById(ws.exercises, ids[i], ExercisePageId);
      if page.Some? {
        bests := bests[ids[i] := OrZero(page.value.lowercaseBest)];
      } else {
        bests := bests[ids[i] := 0];
      }
      assert (set j | 0 <= j < i + 1 :: ids[j]) == (set j | 0 <= j < i :: ids[j]) + {ids[i]};
      i := i + 1;
    }
    resp := Ok(bests);
  }

  /** An id the exercises database does not have gets 0; one it has gets the
      page's `best` number, 0 when that is empty. */
  lemma BestFallback(pages: seq<ExercisePage>, id: string)
    ensures (forall i :: 0 <= i < |pages| ==> pages[i].id != id) ==> BestOf(pages, id) == 0
    ensures forall p :: p in pages && p.id == id && (forall q :: q in pages && q.id == id ==> q == p) ==>
              BestOf(pages, id) == OrZero(p.lowercaseBest)
  {
  }
}
