/** /api/workouts: POST instantiates a template onto a date (one weekly log
    entry per template exercise); GET lists the weekly log, optionally within a
    date range. */
module WorkoutsRoute {
  import opened Wrappers
  import opened Seqs
  import opened Sorting
  import opened Http
  import opened Store
  import opened CompositeName
  import JsNumbers

  /** `Name?.title?.[0]?.plain_text || "Workout"` of the template page. */
  function TemplateName(p: TemplatePage): (name: string)
    ensures name != ""
    ensures FirstText(p.title) != "" ==> name == FirstText(p.title)
    ensures FirstText(p.title) == "" ==> name == "Workout"
  {
    if FirstText(p.title) != "" then FirstText(p.title) else "Workout"
  }

  function ForTemplate(templateId: string): TemplateExercisePage -> bool
  {
    (r: TemplateExercisePage) => RelationContains(r.template, templateId)
  }

  /** The records of the template-exercises query: those related to the
      template, sorted by Order ascending. */
  function TemplateRecords(records: seq<TemplateExercisePage>, templateId: string): seq<TemplateExercisePage>
  {
    SortBy(Filter(records, ForTemplate(templateId)), PageOrder)
  }

  /** A record is instantiated only when it has an exercise relation. */
  predicate HasExercise(r: TemplateExercisePage)
  {
    Truthy(FirstId(r.exercise))
  }

  /** The weekly log entry created for a record. */
  function EntryPage(r: TemplateExercisePage, templateName: string, date: string, id: string): WeeklyPage
  {
    WeeklyPage(id, [Compose(templateName, FirstText(r.title))], Some(date),
               Some([FirstId(r.exercise).GetOr("")]), None, None,
               Some(OrZero(r.defaultSets)), Some(OrZero(r.defaultReps)), Some(0), false)
  }

  /** The entries created for `kept`, the i-th under the i-th new page id. */
  function Instantiated(kept: seq<TemplateExercisePage>, templateName: string, date: string, ids: seq<string>): (pages: seq<WeeklyPage>)
    requires |ids| == |kept|
    ensures |pages| == |kept|
    ensures forall i :: 0 <= i < |kept| ==> pages[i] == EntryPage(kept[i], templateName, date, ids[i])
  {
    seq(|kept|, i requires 0 <= i < |kept| => EntryPage(kept[i], templateName, date, ids[i]))
  }

  /** One element of the response's `workouts`. */
  datatype CreatedWorkout = CreatedWorkout(id: string, name: string, sets: int, reps: int, maxWeight: int)

  datatype Instantiation = Instantiation(workouts: seq<CreatedWorkout>, message: string)

  function Summary(r: TemplateExercisePage, id: string): CreatedWorkout
  {
    CreatedWorkout(id, FirstText(r.title), OrZero(r.defaultSets), OrZero(r.defaultReps), 0)
  }

  function CreatedIds(ws: seq<CreatedWorkout>): (ids: seq<string>)
    ensures |ids| == |ws| && forall i :: 0 <= i < |ws| ==> ids[i] == ws[i].id
  {
    seq(|ws|, i requires 0 <= i < |ws| => ws[i].id)
  }

  function InstantiationMessage(n: nat, templateName: string): string
  {
    "Created " + JsNumbers.DecimalString(n) + " workout entries for " + templateName
  }

  /** After the loop has handled the records `kept` with an exercise, the
      store is `before` followed by their entries, and `created` lists them. */
  ghost predicate Appended(before: seq<WeeklyPage>, weekly: seq<WeeklyPage>, kept: seq<TemplateExercisePage>,
                           templateName: string, date: string, created: seq<CreatedWorkout>)
  {
    && |created| == |kept|
    && weekly == before + Instantiated(kept, templateName, date, CreatedIds(created))
    && forall j :: 0 <= j < |created| ==> created[j] == Summary(kept[j], created[j].id)
  }

  /** One more created entry keeps `Appended`. */
  lemma AppendedSnoc(before: seq<WeeklyPage>, weekly: seq<WeeklyPage>, kept: seq<TemplateExercisePage>,
                     r: TemplateExercisePage, templateName: string, date: string,
                     created: seq<CreatedWorkout>, c: CreatedWorkout)
    requires Appended(before, weekly, kept, templateName, date, created)
    requires c == Summary(r, c.id)
    ensures Appended(before, weekly + [EntryPage(r, templateName, date, c.id)], kept + [r], templateName, date, created + [c])
  {
    var ids := CreatedIds(created + [c]);
    assert ids == CreatedIds(created) + [c.id];
    var longer := Instantiated(kept + [r], templateName, date, ids);
    assert longer == Instantiated(kept, templateName, date, CreatedIds(created)) + [EntryPage(r, templateName, date, c.id)];
  }

  /** One `pages.create` of the loop: the entry for `page` under a fresh id. */
  method AppendEntry(ws: Workspace, page: TemplateExercisePage, templateName: string, date: string)
    returns (c: CreatedWorkout)
    requires ws.Valid()
    modifies ws
    ensures ws.Valid() && ws.daily == old(ws.daily)
    ensures c.id !in WeeklyIds(old(ws.weekly))
    ensures ws.weekly == old(ws.weekly) + [EntryPage(page, templateName, date, c.id)]
    ensures c == Summary(page, c.id)
  {
    var id := FreshId(WeeklyIds(ws.weekly));
    var entry := EntryPage(page, templateName, date, id);
    AddWeeklyKeepsDistinct(ws.weekly, entry);
    ws.weekly := ws.weekly + [entry];
    c := Summary(page, id);
  }

  /** The instantiation loop: one new entry per record with an exercise, in
      record order, each under a fresh id. */
  method AppendEntries(ws: Workspace, records: seq<TemplateExercisePage>, templateName: string, date: string)
    returns (created: seq<CreatedWorkout>)
    requires ws.Valid()
    modifies ws
    ensures ws.Valid() && ws.daily == old(ws.daily)
    ensures |created| == |Filter(records, HasExercise)|
    ensures ws.weekly == old(ws.weekly) + Instantiated(Filter(records, HasExercise), templateName, date, CreatedIds(created))
    ensures forall j :: 0 <= j < |created| ==> created[j] == Summary(Filter(records, HasExercise)[j], created[j].id)
  {
    created := [];
    ghost var kept: seq<TemplateExercisePage> := [];
    ghost var before := ws.weekly;
    var i := 0;
    while i < |records|
      invariant 0 <= i <= |records|
      invariant kept == Filter(records[..i], HasExercise)
      invariant ws.Valid() && ws.daily == old(ws.daily)
      invariant Appended(before, ws.weekly, kept, templateName, date, created)
    {
      var page := records[i];
      FilterAppend(records[..i], [page], HasExercise);
      assert records[..i + 1] == records[..i] + [page];
      assert Filter([page], HasExercise) == if HasExercise(page) then [page] else [];
      if Truthy(FirstId(page.exercise)) {
        ghost var weekly := ws.weekly;
        var c := AppendEntry(ws, page, templateName, date);
        AppendedSnoc(before, weekly, kept, page, templateName, date, created, c);
        created := created + [c];
        kept := kept + [page];
      }
      i := i + 1;
    }
    assert records[..i] == records;
  }

  /** POST: the request's `templateId` and `date` are required; a template the
      store does not have fails the request; otherwise one entry is appended
      per related record with an exercise, in Order order, and the rest of
      the store is unchanged. */
  method PostWorkouts(ws: Workspace, templateId: Field, date: Field) returns (resp: Response<Instantiation>)
    requires ws.Valid()
    modifies ws
    ensures ws.Valid() && ws.daily == old(ws.daily)
    ensures !(templateId.Truthy() && date.Truthy()) ==>
              resp == Error(BadRequest, "Template ID and date are required") && ws.weekly == old(ws.weekly)
    ensures templateId.Truthy() && date.Truthy() && FindById(ws.templates, templateId.s, TemplatePageId).None? ==>
              resp == Error(ServerError, "Failed to create workout from template") && ws.weekly == old(ws.weekly)
    ensures templateId.Truthy() && date.Truthy() && FindById(ws.templates, templateId.s, TemplatePageId).Some? ==>
              var name := TemplateName(FindById(ws.templates, templateId.s, TemplatePageId).value);
              var records := TemplateRecords(ws.templateExercises, templateId.s);
              var kept := Filter(records, HasExercise);
              && resp.Ok?
              && |resp.body.workouts| == |kept| == Count(records, HasExercise)
              && ws.weekly == old(ws.weekly) + Instantiated(kept, name, date.s, CreatedIds(resp.body.workouts))
              && (forall i :: 0 <= i < |kept| ==> resp.body.workouts[i] == Summary(kept[i], resp.body.workouts[i].id))
              && resp.body.message == InstantiationMessage(|kept|, name)
  {
    if !(templateId.Truthy() && date.Truthy()) {
      return Error(BadRequest, "Template ID and date are required");
    }
    var templatePage := FindById(ws.templates, templateId.s, TemplatePageId);
    if templatePage.None? {
      return Error(ServerError, "Failed to create workout from template");
    }
    var name := TemplateName(templatePage.value);
    var records := TemplateRecords(ws.templateExercises, templateId.s);
    var created := AppendEntries(ws, records, name, date.s);
    CountIsFilterLength(records, HasExercise);
    resp := Ok(Instantiation(created, InstantiationMessage(|created|, name)));
  }

  /** The created entries keep the Order order of the records. */
  lemma InstantiatedInOrder(records: seq<TemplateExercisePage>, templateId: string)
    ensures SortedBy(Filter(TemplateRecords(records, templateId), HasExercise), PageOrder)
  {
    SortBySortedAndPermutation(Filter(records, ForTemplate(templateId)), PageOrder);
    FilterKeepsSorted(TemplateRecords(records, templateId), PageOrder, HasExercise);
  }

  /** Exactly the template's records with an exercise are instantiated: each
      created entry comes from a record related to the template, and every such
      record with an exercise yields an entry. */
  lemma InstantiatedRecords(records: seq<TemplateExercisePage>, templateId: string)
    ensures forall r :: r in Filter(TemplateRecords(records, templateId), HasExercise) <==>
              r in records && RelationContains(r.template, templateId) && HasExercise(r)
  {
    var related := Filter(records, ForTemplate(templateId));
    forall r ensures r in Filter(TemplateRecords(records, templateId), HasExercise) <==>
                     r in records && RelationContains(r.template, templateId) && HasExercise(r) {
      FilterMember(TemplateRecords(records, templateId), HasExercise, r);
      SortByMember(related, PageOrder, r);
      FilterMember(records, ForTemplate(templateId), r);
    }
  }

  /** The GET filter: a date range only when both bounds are given. */
  datatype DateFilter = NoFilter | Between(start: string, end: string)

  function FilterFor(startDate: Field, endDate: Field): (f: DateFilter)
    ensures f.Between? <==> startDate.Truthy() && endDate.Truthy()
    ensures f.Between? ==> f.start == startDate.s && f.end == endDate.s
  {
    if startDate.Truthy() && endDate.Truthy() then Between(startDate.s, endDate.s) else NoFilter
  }

  /** A page the query returns: live, and within the range if there is one. */
  predicate Listed(f: DateFilter, p: WeeklyPage)
  {
    !p.archived && (f.Between? ==> DateInRange(p.date, f.start, f.end))
  }

  function ListedBy(f: DateFilter): WeeklyPage -> bool
  {
    (p: WeeklyPage) => Listed(f, p)
  }

  /** An element of the GET response. */
  datatype WorkoutRow = WorkoutRow(
    id: string,
    name: string,
    date: string,
    sets: int,
    reps: int,
    maxWeight: int,
    exerciseIds: seq<string>)

  /** Decoding a page: "" for a missing name or date, 0 for a missing number,
      [] for a missing relation. */
  function DecodeRow(p: WeeklyPage): WorkoutRow
  {
    WorkoutRow(p.id, FirstText(p.title), p.date.GetOr(""), OrZero(p.totalSets), OrZero(p.totalReps),
               OrZero(p.maxWeight), Ids(p.exercises))
  }

  /** The rows of the response for the pages the query returned. */
  function DecodeAll(listed: seq<WeeklyPage>): (rows: seq<WorkoutRow>)
    ensures |rows| == |listed| && forall i :: 0 <= i < |listed| ==> rows[i] == DecodeRow(listed[i])
  {
    seq(|listed|, i requires 0 <= i < |listed| => DecodeRow(listed[i]))
  }

  /** A listed page is decoded into the response. */
  lemma ListedPageIsDecoded(weekly: seq<WeeklyPage>, f: DateFilter, p: WeeklyPage)
    requires p in weekly && Listed(f, p)
    ensures DecodeRow(p) in DecodeAll(Filter(weekly, ListedBy(f)))
  {
    var listed := Filter(weekly, ListedBy(f));
    FilterMember(weekly, ListedBy(f), p);
    var k :| 0 <= k < |listed| && listed[k] == p;
    assert DecodeAll(listed)[k] == DecodeRow(p);
  }

  /** GET: the decoded listed pages, in store order. */
  function GetWorkouts(weekly: seq<WeeklyPage>, startDate: Field, endDate: Field): (rows: seq<WorkoutRow>)
    ensures |rows| == Count(weekly, ListedBy(FilterFor(startDate, endDate)))
    ensures forall i :: 0 <= i < |rows| ==>
              exists p :: p in weekly && Listed(FilterFor(startDate, endDate), p) && rows[i] == DecodeRow(p)
    ensures forall j :: 0 <= j < |weekly| && Listed(FilterFor(startDate, endDate), weekly[j]) ==> DecodeRow(weekly[j]) in rows
  {
    var f := FilterFor(startDate, endDate);
    var listed := Filter(weekly, ListedBy(f));
    CountIsFilterLength(weekly, ListedBy(f));
    var rows := DecodeAll(listed);
    assert forall i :: 0 <= i < |rows| ==> rows[i] == DecodeRow(listed[i]) && listed[i] in weekly && ListedBy(f)(listed[i]);
    assert forall j :: 0 <= j < |weekly| && Listed(f, weekly[j]) ==> DecodeRow(weekly[j]) in rows by {
      forall j | 0 <= j < |weekly| && Listed(f, weekly[j]) ensures DecodeRow(weekly[j]) in rows {
        ListedPageIsDecoded(weekly, f, weekly[j]);
      }
    }
    rows
  }

  /** Without both bounds GET lists every live page: one row per live page. */
  lemma GetWithoutRangeListsAllLive(weekly: seq<WeeklyPage>, startDate: Field, endDate: Field)
    requires !(startDate.Truthy() && endDate.Truthy())
    ensures |GetWorkouts(weekly, startDate, endDate)| == Count(weekly, (p: WeeklyPage) => !p.archived)
    ensures (forall j :: 0 <= j < |weekly| ==> !weekly[j].archived) ==> |GetWorkouts(weekly, startDate, endDate)| == |weekly|
  {
    CountSame(weekly, ListedBy(FilterFor(startDate, endDate)), (p: WeeklyPage) => !p.archived);
  }

  /** An entry created by POST reads back through GET with the template's
      defaults, a max weight of 0, the one exercise, and a name that parses
      back into the template name and the exercise name. */
  lemma CreatedEntryReadsBack(r: TemplateExercisePage, templateName: string, date: string, id: string)
    requires HasExercise(r)
    requires SafeTemplateName(templateName) && FirstText(r.title) != ""
    ensures var row := DecodeRow(EntryPage(r, templateName, date, id));
              && row.id == id && row.date == date
              && row.sets == OrZero(r.defaultSets) && row.reps == OrZero(r.defaultReps) && row.maxWeight == 0
              && row.exerciseIds == [FirstId(r.exercise).value]
              && ExerciseNameOf(row.name) == FirstText(r.title)
              && WorkoutNameOf(row.name) == (if templateName != "" then templateName else "Workout")
  {
    ParseCompose(templateName, FirstText(r.title));
  }

  /** An entry created for a date is listed by GET for any range holding it. */
  lemma CreatedEntryIsListed(r: TemplateExercisePage, templateName: string, date: string, id: string, start: string, end: string)
    requires DateLessEq(start, date) && DateLessEq(date, end)
    ensures Listed(Between(start, end), EntryPage(r, templateName, date, id))
  {
  }
}
