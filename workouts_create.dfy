/** POST /api/workouts/create: one weekly log entry for one exercise of a
    template on a date. */
module WorkoutsCreate {
  import opened Wrappers
  import opened Seqs
  import opened Http
  import opened Store
  import opened CompositeName
  import WorkoutsRoute

  /** The request body; a number that is absent is None. */
  datatype CreateRequest = CreateRequest(
    templateId: Field,
    exerciseId: Field,
    exerciseName: Field,
    date: Field,
    totalSets: Option<int>,
    totalReps: Option<int>,
    maxWeight: Option<int>)

  datatype Created = Created(workoutId: string, message: string)

  const MissingFieldsMessage: string := "Template ID, exercise ID, exercise name, and date are required"
  const FailureMessage: string := "Failed to create workout entry"

  predicate Complete(req: CreateRequest)
  {
    req.templateId.Truthy() && req.exerciseId.Truthy() && req.exerciseName.Truthy() && req.date.Truthy()
  }

  /** The query filter: the Template relation contains the template and the
      Exercise relation contains the exercise. */
  function ForTemplateExercise(templateId: string, exerciseId: string): TemplateExercisePage -> bool
  {
    (r: TemplateExercisePage) => RelationContains(r.template, templateId) && RelationContains(r.exercise, exerciseId)
  }

  /** `templateExerciseId && { "Template Exercise": [templateExerciseId] }`:
      the first record of the query, when there is one. */
  function TemplateExerciseRelation(records: seq<TemplateExercisePage>, templateId: string, exerciseId: string): Option<seq<string>>
  {
    var found := Filter(records, ForTemplateExercise(templateId, exerciseId));
    if |found| > 0 && found[0].id != "" then Some([found[0].id]) else None
  }

  /** The page the route asks the store to create under the id `id`, or the
      error it answers with. */
  function NewEntry(templates: seq<TemplatePage>, records: seq<TemplateExercisePage>, req: CreateRequest, id: string): Response<WeeklyPage>
  {
    if !Complete(req) then Error(BadRequest, MissingFieldsMessage)
    else match FindById(templates, req.templateId.s, TemplatePageId)
      case None => Error(ServerError, FailureMessage)
      case Some(t) =>
        Ok(WeeklyPage(id, [Compose(WorkoutsRoute.TemplateName(t), req.exerciseName.s)], Some(req.date.s),
                      Some([req.exerciseId.s]), Some([req.templateId.s]),
                      TemplateExerciseRelation(records, req.templateId.s, req.exerciseId.s),
                      Some(OrZero(req.totalSets)), Some(OrZero(req.totalReps)), Some(OrZero(req.maxWeight)), false))
  }

  /** What the route answers and writes, case by case. */
  lemma NewEntryOutcome(templates: seq<TemplatePage>, records: seq<TemplateExercisePage>, req: CreateRequest, id: string)
    ensures NewEntry(templates, records, req, id) == Error(BadRequest, MissingFieldsMessage) <==> !Complete(req)
    ensures NewEntry(templates, records, req, id) == Error(ServerError, FailureMessage) <==>
              Complete(req) && forall i :: 0 <= i < |templates| ==> templates[i].id != req.templateId.s
    ensures NewEntry(templates, records, req, id).Ok? ==>
              var p := NewEntry(templates, records, req, id).body;
              && Complete(req)
              && p.id == id && !p.archived
              && (exists t :: t in templates && t.id == req.templateId.s &&
                    p.title == [Compose(WorkoutsRoute.TemplateName(t), req.exerciseName.s)])
              && p.date == Some(req.date.s)
              && p.exercises == Some([req.exerciseId.s])
              && p.workoutTemplate == Some([req.templateId.s])
              && p.templateExercise == TemplateExerciseRelation(records, req.templateId.s, req.exerciseId.s)
              && p.totalSets == Some(OrZero(req.totalSets)) && p.totalReps == Some(OrZero(req.totalReps))
              && p.maxWeight == Some(OrZero(req.maxWeight))
  {
  }

  /** The Template Exercise relation is absent when no record matches, and
      otherwise names the first matching record. */
  lemma TemplateExerciseRelationIsFirstMatch(records: seq<TemplateExercisePage>, templateId: string, exerciseId: string)
    ensures (forall j :: 0 <= j < |records| ==> !ForTemplateExercise(templateId, exerciseId)(records[j])) ==>
              TemplateExerciseRelation(records, templateId, exerciseId).None?
    ensures forall k ::
              (&& 0 <= k < |records| && records[k].id != ""
               && RelationContains(records[k].template, templateId) && RelationContains(records[k].exercise, exerciseId)
               && (forall j :: 0 <= j < k ==> !ForTemplateExercise(templateId, exerciseId)(records[j])))
              ==> TemplateExerciseRelation(records, templateId, exerciseId) == Some([records[k].id])
  {
    var m := ForTemplateExercise(templateId, exerciseId);
    if forall j :: 0 <= j < |records| ==> !m(records[j]) {
      FilterNone(records, m);
    }
    forall k | 0 <= k < |records| && records[k].id != "" &&
               RelationContains(records[k].template, templateId) && RelationContains(records[k].exercise, exerciseId) &&
               (forall j :: 0 <= j < k ==> !m(records[j]))
      ensures TemplateExerciseRelation(records, templateId, exerciseId) == Some([records[k].id])
    {
      FilterFirst(records, m, k);
    }
  }

  /** The entry reads back through GET with the request's numbers (0 for
      absent ones) and a name that parses back into its two halves. */
  lemma NewEntryReadsBack(templates: seq<TemplatePage>, records: seq<TemplateExercisePage>, req: CreateRequest, id: string)
    requires NewEntry(templates, records, req, id).Ok?
    requires forall t :: t in templates && t.id == req.templateId.s ==> SafeTemplateName(WorkoutsRoute.TemplateName(t))
    ensures var row := WorkoutsRoute.DecodeRow(NewEntry(templates, records, req, id).body);
              && ExerciseNameOf(row.name) == req.exerciseName.s
              && row.exerciseIds == [req.exerciseId.s]
              && row.date == req.date.s
              && row.sets == OrZero(req.totalSets) && row.reps == OrZero(req.totalReps)
              && row.maxWeight == OrZero(req.maxWeight)
  {
    var t := FindById(templates, req.templateId.s, TemplatePageId).value;
    ParseCompose(WorkoutsRoute.TemplateName(t), req.exerciseName.s);
  }

  /** The route: on success the new entry is appended under a fresh id. */
  method CreateWorkout(ws: Workspace, req: CreateRequest) returns (resp: Response<Created>)
    requires ws.Valid()
    modifies ws
    ensures ws.Valid() && ws.daily == old(ws.daily)
    ensures resp.Error? <==> NewEntry(ws.templates, ws.templateExercises, req, "").Error?
    ensures resp.Error? ==>
              ws.weekly == old(ws.weekly) &&
              NewEntry(ws.templates, ws.templateExercises, req, "") == Error(resp.status, resp.message)
    ensures resp.Ok? ==>
              NewEntry(ws.templates, ws.templateExercises, req, resp.body.workoutId).Ok? &&
              ws.weekly == old(ws.weekly) + [NewEntry(ws.templates, ws.templateExercises, req, resp.body.workoutId).body] &&
              resp.body.message == "Created workout entry for " + req.exerciseName.s
  {
    var id := FreshId(WeeklyIds(ws.weekly));
    var entry := NewEntry(ws.templates, ws.templateExercises, req, id);
    if entry.Error? {
      return Error(entry.status, entry.message);
    }
    AddWeeklyKeepsDistinct(ws.weekly, entry.body);
    ws.weekly := ws.weekly + [entry.body];
    resp := Ok(Created(id, "Created workout entry for " + req.exerciseName.s));
  }
}
