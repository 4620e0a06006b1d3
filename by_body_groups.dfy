/** POST /api/exercises/by-body-groups: the exercises of any of the requested
    body groups, with the name of each exercise's first body group. */
module ByBodyGroups {
  import opened Wrappers
  import opened Seqs
  import opened Http
  import opened Store

  const MissingIdsMessage: string := "Body group IDs array is required"

  datatype ExerciseSummary = ExerciseSummary(
    id: string,
    name: string,
    bodyGroupIds: seq<string>,
    bodyGroupName: Option<string>,
    best: int)

  /** The name-map loop: each requested id whose page the store returns is
      mapped to that page's name ("" when it has none); a failed lookup is
      skipped. */
  method BodyGroupNames(pages: seq<BodyGroupPage>, ids: seq<string>) returns (names: map<string, string>)
    ensures forall id :: id in names <==> id in ids && FindById(pages, id, BodyGroupPageId).Some?
    ensures forall id :: id in names ==> names[id] == FirstText(FindById(pages, id, BodyGroupPageId).value.title)
  {
    names := map[];
    var i := 0;
    while i < |ids|
      invariant 0 <= i <= |ids|
      invariant forall id :: id in names <==> id in ids[..i] && FindById(pages, id, BodyGroupPageId).Some?
      invariant forall id :: id in names ==> names[id] == FirstText(FindById(pages, id, BodyGroupPageId).value.title)
    {
      var page := FindById(pages, ids[i], BodyGroupPageId);
      if page.Some? {
        names := names[ids[i] := FirstText(page.value.title)];
      }
      assert ids[..i + 1] == ids[..i] + [ids[i]];
      i := i + 1;
    }
    assert ids[..i] == ids;
  }

  /** `names` maps exactly the requested ids the store resolves, each to the
      first title of its body group page. */
  ghost predicate NameMap(pages: seq<BodyGroupPage>, ids: seq<string>, names: map<string, string>)
  {
    && (forall id :: id in names <==> id in ids && FindById(pages, id, BodyGroupPageId).Some?)
    && (forall id :: id in names ==> names[id] == FirstText(FindById(pages, id, BodyGroupPageId).value.title))
  }

  /** Decoding an exercise page: relations default to [], the name to "", the
      `Best` number to 0; the body group name is that of the first relation
      id, None without a relation or when the name map lacks that id. */
  function Summarize(p: ExercisePage, names: map<string, string>): (e: ExerciseSummary)
    ensures e.bodyGroupName.Some? <==> |Ids(p.bodyGroup)| > 0 && Ids(p.bodyGroup)[0] in names
  {
    var groups := Ids(p.bodyGroup);
    ExerciseSummary(p.id, FirstText(p.title), groups,
                    if |groups| > 0 && groups[0] in names then Some(names[groups[0]]) else None,
                    OrZero(p.best))
  }

  /** `ex.bodyGroupIds.some(id => bodyGroupIds.includes(id))`. */
  predicate Intersects(groups: seq<string>, requested: seq<string>)
  {
    exists i :: 0 <= i < |groups| && groups[i] in requested
  }

  function Selected(requested: seq<string>): ExerciseSummary -> bool
  {
    (e: ExerciseSummary) => Intersects(e.bodyGroupIds, requested)
  }

  function Summaries(pages: seq<ExercisePage>, names: map<string, string>): (es: seq<ExerciseSummary>)
    ensures |es| == |pages| && forall i :: 0 <= i < |pages| ==> es[i] == Summarize(pages[i], names)
  {
    seq(|pages|, i requires 0 <= i < |pages| => Summarize(pages[i], names))
  }

  /** The handler: 400 unless the ids are a non-empty array; otherwise the
      decoded exercises, in query order, whose body groups meet the request. */
  method ExercisesByBodyGroups(ws: Workspace, bodyGroupIds: ArrayField) returns (resp: Response<seq<ExerciseSummary>>)
    ensures !(bodyGroupIds.Array? && |bodyGroupIds.items| > 0) ==> resp == Error(BadRequest, MissingIdsMessage)
    ensures bodyGroupIds.Array? && |bodyGroupIds.items| > 0 ==>
              && resp.Ok?
              && (forall i :: 0 <= i < |resp.body| ==>
                    Intersects(resp.body[i].bodyGroupIds, bodyGroupIds.items) &&
                    exists j :: 0 <= j < |ws.exercises| && resp.body[i].id == ws.exercises[j].id &&
                                resp.body[i].bodyGroupIds == Ids(ws.exercises[j].bodyGroup))
              && (forall j :: 0 <= j < |ws.exercises| && Intersects(Ids(ws.exercises[j].bodyGroup), bodyGroupIds.items) ==>
                    exists i :: 0 <= i < |resp.body| && resp.body[i].id == ws.exercises[j].id)
              && exists names: map<string, string> ::
                   && NameMap(ws.bodyGroups, bodyGroupIds.items, names)
                   && resp.body == Filter(Summaries(ws.exercises, names), Selected(bodyGroupIds.items))
  {
    if !(bodyGroupIds.Array? && |bodyGroupIds.items| > 0) {
      return Error(BadRequest, MissingIdsMessage);
    }
    var requested := bodyGroupIds.items;
    var names := BodyGroupNames(ws.bodyGroups, requested);
    assert NameMap(ws.bodyGroups, requested, names);
    var all := Summaries(ws.exercises, names);
    var selected := Filter(all, Selected(requested));
    forall i | 0 <= i < |selected|
      ensures exists j :: 0 <= j < |ws.exercises| && selected[i].id == ws.exercises[j].id &&
                          selected[i].bodyGroupIds == Ids(ws.exercises[j].bodyGroup)
    {
      var j :| 0 <= j < |all| && all[j] == selected[i];
    }
    forall j | 0 <= j < |ws.exercises| && Intersects(Ids(ws.exercises[j].bodyGroup), requested)
      ensures exists i :: 0 <= i < |selected| && selected[i].id == ws.exercises[j].id
    {
      assert Selected(requested)(all[j]);
      var i :| 0 <= i < |selected| && selected[i] == all[j];
    }
    resp := Ok(selected);
  }

  /** An exercise without a body group relation is never returned. */
  lemma NoRelationNeverSelected(p: ExercisePage, names: map<string, string>, requested: seq<string>)
    requires Ids(p.bodyGroup) == []
    ensures !Selected(requested)(Summarize(p, names))
  {
  }
}
