/** The workout edit modal: loading a day's entries as editable exercises,
    tracking which entries and which template exercises the user removed,
    switching templates, and the order of the calls made on save. */
module WorkoutEditModal {
  import opened Wrappers
  import opened Seqs
  import opened CompositeName
  import opened ExerciseCustomizer
  import Store
  import TemplatesRoute
  import WorkoutsRoute

  /** One element of the weekly-log response as an editable exercise: keyed
      by its page id, the first exercise id (or ""), the exercise part of the
      title, and the stored sets and reps. */
  function LoadRow(w: WorkoutsRoute.WorkoutRow): CustomizableExercise
  {
    var exerciseId := if |w.exerciseIds| > 0 && w.exerciseIds[0] != "" then w.exerciseIds[0] else "";
    CustomizableExercise(Some(w.id), exerciseId, ExerciseNameOf(w.name), w.sets, w.reps)
  }

  /** `loadWorkoutsForDay`: one entry per response element, in order. */
  function LoadRows(rows: seq<WorkoutsRoute.WorkoutRow>): (es: seq<CustomizableExercise>)
    ensures |es| == |rows|
    ensures forall i :: 0 <= i < |rows| ==> es[i].pageId == Some(rows[i].id)
    ensures forall i :: 0 <= i < |rows| ==>
              es[i].exerciseId == if rows[i].exerciseIds != [] then rows[i].exerciseIds[0] else ""
    ensures forall i :: 0 <= i < |rows| ==> es[i].exerciseName == ExerciseNameOf(rows[i].name)
    ensures forall i :: 0 <= i < |rows| ==> es[i].defaultSets == rows[i].sets && es[i].defaultReps == rows[i].reps
  {
    seq(|rows|, i requires 0 <= i < |rows| => LoadRow(rows[i]))
  }

  /** Loading the entries that instantiating a template created gives back
      each record's exercise id and exercise name. */
  lemma LoadCreatedEntries(r: Store.TemplateExercisePage, templateName: string, date: string, id: string)
    requires WorkoutsRoute.HasExercise(r)
    requires SafeTemplateName(templateName) && Store.FirstText(r.title) != ""
    ensures var e := LoadRow(WorkoutsRoute.DecodeRow(WorkoutsRoute.EntryPage(r, templateName, date, id)));
              && e.pageId == Some(id)
              && e.exerciseId == Store.FirstId(r.exercise).value
              && e.exerciseName == Store.FirstText(r.title)
  {
    WorkoutsRoute.CreatedEntryReadsBack(r, templateName, date, id);
  }

  /** `exercises.map(ex => ex.pageId).filter(Boolean)`. */
  function PageIds(es: seq<CustomizableExercise>): (ids: seq<string>)
    ensures forall id :: id in ids <==> id != "" && exists i :: 0 <= i < |es| && es[i].pageId == Some(id)
    decreases |es|
  {
    if es == [] then []
    else
      var rest := PageIds(es[1..]);
      var r := if es[0].pageId.Some? && es[0].pageId.value != "" then [es[0].pageId.value] + rest else rest;
      assert forall id :: id in r <==> id != "" && exists i :: 0 <= i < |es| && es[i].pageId == Some(id) by {
        forall id ensures id in r <==> id != "" && exists i :: 0 <= i < |es| && es[i].pageId == Some(id) {
          if exists i :: 0 <= i < |es| && es[i].pageId == Some(id) {
            var i :| 0 <= i < |es| && es[i].pageId == Some(id);
            if i > 0 {
              assert es[1..][i - 1] == es[i];
            }
          }
          if id in rest {
            var i :| 0 <= i < |es| - 1 && es[1..][i].pageId == Some(id);
            assert es[i + 1] == es[1..][i];
          }
        }
      }
      r
  }

  lemma {:induction false} NoPageIds(es: seq<CustomizableExercise>)
    requires forall i :: 0 <= i < |es| ==> es[i].pageId.None?
    ensures PageIds(es) == []
    decreases |es|
  {
    if es != [] {
      NoPageIds(es[1..]);
    }
  }

  /** `exercises.map(ex => ex.exerciseId)`. */
  function ExerciseIds(es: seq<CustomizableExercise>): (ids: seq<string>)
    ensures |ids| == |es| && forall i :: 0 <= i < |es| ==> ids[i] == es[i].exerciseId
  {
    seq(|es|, i requires 0 <= i < |es| => es[i].exerciseId)
  }

  /** `!ex.pageId`: an entry that does not come from a log entry. */
  predicate WithoutPage(e: CustomizableExercise)
  {
    e.pageId.None? || e.pageId.value == ""
  }

  /** `exercises.filter(ex => !ex.pageId).map(ex => ex.exerciseId)`. */
  function TemplateExerciseIds(es: seq<CustomizableExercise>): (ids: seq<string>)
  {
    ExerciseIds(Filter(es, WithoutPage))
  }

  function NotIn(ids: seq<string>): string -> bool
  {
    (id: string) => id !in ids
  }

  /** The page ids to delete: the original entries' page ids, once each in
      first-occurrence order, that no current entry has. */
  function DeletedPages(original: seq<CustomizableExercise>, current: seq<CustomizableExercise>): seq<string>
  {
    Filter(Distinct(PageIds(original)), NotIn(PageIds(current)))
  }

  /** The exercise ids to delete: those of original entries without a page
      id, once each, that no current entry has. */
  function DeletedExercises(original: seq<CustomizableExercise>, current: seq<CustomizableExercise>): seq<string>
  {
    Filter(Distinct(TemplateExerciseIds(original)), NotIn(ExerciseIds(current)))
  }

  /** `originalIds.forEach(id => { if (!currentIds.has(id)) push(id) })` over
      the distinct `originals`. (The page-id loop also tests `id`, which never
      fails there: page ids are filtered with `Boolean` first.) */
  method CollectMissing(originals: seq<string>, current: seq<string>) returns (missing: seq<string>)
    ensures missing == Filter(originals, NotIn(current))
    ensures forall id :: id in missing <==> id in originals && id !in current
  {
    missing := [];
    var i := 0;
    while i < |originals|
      invariant 0 <= i <= |originals|
      invariant missing == Filter(originals[..i], NotIn(current))
    {
      FilterAppend(originals[..i], [originals[i]], NotIn(current));
      assert originals[..i + 1] == originals[..i] + [originals[i]];
      if originals[i] !in current {
        missing := missing + [originals[i]];
      }
      i := i + 1;
    }
    assert originals[..i] == originals;
    forall id | id in originals && id !in current ensures id in missing {
      var k :| 0 <= k < |originals| && originals[k] == id;
      assert NotIn(current)(originals[k]);
    }
  }

  /** No deleted page id belongs to a current entry, and every original page
      id that no current entry has is deleted. */
  lemma DeletedPagesMeaning(original: seq<CustomizableExercise>, current: seq<CustomizableExercise>, id: string)
    ensures id in DeletedPages(original, current) ==>
              id != "" && (exists i :: 0 <= i < |original| && original[i].pageId == Some(id)) &&
              forall i :: 0 <= i < |current| ==> current[i].pageId != Some(id)
    ensures id != "" && (exists i :: 0 <= i < |original| && original[i].pageId == Some(id)) &&
            (forall i :: 0 <= i < |current| ==> current[i].pageId != Some(id)) ==>
              id in DeletedPages(original, current)
    ensures NoDuplicates(DeletedPages(original, current))
  {
    var d := Distinct(PageIds(original));
    FilterNoDuplicates(d, NotIn(PageIds(current)));
    if id != "" && id in PageIds(original) && id !in PageIds(current) {
      var k :| 0 <= k < |d| && d[k] == id;
      assert NotIn(PageIds(current))(d[k]);
    }
  }

  /** The ids `TemplateExerciseIds` collects: those of entries without a
      page id. */
  lemma TemplateExerciseIdsMeaning(es: seq<CustomizableExercise>, id: string)
    ensures id in TemplateExerciseIds(es) <==> exists i :: 0 <= i < |es| && WithoutPage(es[i]) && es[i].exerciseId == id
  {
    var withoutPage := Filter(es, WithoutPage);
    if exists i :: 0 <= i < |es| && WithoutPage(es[i]) && es[i].exerciseId == id {
      var i :| 0 <= i < |es| && WithoutPage(es[i]) && es[i].exerciseId == id;
      var m :| 0 <= m < |withoutPage| && withoutPage[m] == es[i];
      assert TemplateExerciseIds(es)[m] == id;
    }
    if id in TemplateExerciseIds(es) {
      var m :| 0 <= m < |withoutPage| && TemplateExerciseIds(es)[m] == id;
      assert withoutPage[m] in es && WithoutPage(withoutPage[m]);
    }
  }

  /** A deleted exercise id is that of an original entry without a page id
      and of no current entry; each such id is deleted, once. */
  lemma DeletedExercisesMeaning(original: seq<CustomizableExercise>, current: seq<CustomizableExercise>, id: string)
    ensures id in DeletedExercises(original, current) <==>
              (exists i :: 0 <= i < |original| && WithoutPage(original[i]) && original[i].exerciseId == id) &&
              forall i :: 0 <= i < |current| ==> current[i].exerciseId != id
    ensures NoDuplicates(DeletedExercises(original, current))
  {
    var d := Distinct(TemplateExerciseIds(original));
    FilterNoDuplicates(d, NotIn(ExerciseIds(current)));
    TemplateExerciseIdsMeaning(original, id);
    assert id in ExerciseIds(current) <==> exists i :: 0 <= i < |current| && current[i].exerciseId == id;
    if id in TemplateExerciseIds(original) && id !in ExerciseIds(current) {
      var k :| 0 <= k < |d| && d[k] == id;
      assert NotIn(ExerciseIds(current))(d[k]);
    }
  }

  /** A call `handleSave` makes: a delete of one log entry, or the parent's
      save with the template, the list and the exercise ids to delete. */
  datatype SaveCall = DeleteEntry(pageId: string) | Save(templateId: string, exercises: seq<CustomizableExercise>, deletedExerciseIds: seq<string>)

  /** `templates.find(t => t.id === templateId)`. */
  function TemplateIdOf(t: TemplatesRoute.WorkoutTemplate): string { t.id }

  /** The exercises of a template as editable entries: no page ids. */
  function FromTemplate(t: TemplatesRoute.WorkoutTemplate): (es: seq<CustomizableExercise>)
    ensures |es| == |t.exercises|
    ensures forall i :: 0 <= i < |es| ==>
              es[i] == CustomizableExercise(None, t.exercises[i].exerciseId, t.exercises[i].exerciseName,
                                            t.exercises[i].defaultSets, t.exercises[i].defaultReps)
  {
    seq(|t.exercises|, i requires 0 <= i < |t.exercises| =>
      CustomizableExercise(None, t.exercises[i].exerciseId, t.exercises[i].exerciseName,
                           t.exercises[i].defaultSets, t.exercises[i].defaultReps))
  }

  /** The modal's state. `currentTemplate` is the template of the day being
      edited; without one the modal is in create mode. */
  class EditModal {
    const currentTemplate: Option<TemplatesRoute.WorkoutTemplate>
    const templates: seq<TemplatesRoute.WorkoutTemplate>
    var selectedTemplate: string
    var customExercises: seq<CustomizableExercise>
    var originalExercises: seq<CustomizableExercise>
    var deletedExerciseIds: seq<string>
    var deletedPageIds: seq<string>

    predicate IsCreateMode()
    {
      currentTemplate.None?
    }

    constructor (currentTemplate: Option<TemplatesRoute.WorkoutTemplate>, templates: seq<TemplatesRoute.WorkoutTemplate>)
      ensures this.currentTemplate == currentTemplate && this.templates == templates
      ensures selectedTemplate == "" && customExercises == [] && originalExercises == []
      ensures deletedExerciseIds == [] && deletedPageIds == []
    {
      this.currentTemplate := currentTemplate;
      this.templates := templates;
      selectedTemplate, customExercises, originalExercises := "", [], [];
      deletedExerciseIds, deletedPageIds := [], [];
    }

    /** The effect run when the modal opens on a date: in edit mode select
        the day's template and clear the deletion lists (the entries arrive
        with `LoadWorkoutsForDay`); in create mode reset everything. */
    method Open(date: string)
      modifies this
      ensures date == "" ==>
                && selectedTemplate == old(selectedTemplate) && customExercises == old(customExercises)
                && originalExercises == old(originalExercises)
                && deletedExerciseIds == old(deletedExerciseIds) && deletedPageIds == old(deletedPageIds)
      ensures date != "" && currentTemplate.Some? ==>
                && selectedTemplate == currentTemplate.value.id
                && deletedExerciseIds == [] && deletedPageIds == []
                && customExercises == old(customExercises) && originalExercises == old(originalExercises)
      ensures date != "" && currentTemplate.None? ==>
                && selectedTemplate == "" && customExercises == [] && originalExercises == []
                && deletedExerciseIds == [] && deletedPageIds == []
    {
      if date != "" {
        if currentTemplate.Some? {
          selectedTemplate := currentTemplate.value.id;
          deletedExerciseIds, deletedPageIds := [], [];
        } else {
          selectedTemplate, customExercises, originalExercises := "", [], [];
          deletedExerciseIds, deletedPageIds := [], [];
        }
      }
    }

    /** The day's entries arrive: they become both the list and the original. */
    method LoadWorkoutsForDay(rows: seq<WorkoutsRoute.WorkoutRow>)
      modifies this
      ensures customExercises == LoadRows(rows) && originalExercises == LoadRows(rows)
      ensures selectedTemplate == old(selectedTemplate)
      ensures deletedExerciseIds == old(deletedExerciseIds) && deletedPageIds == old(deletedPageIds)
    {
      customExercises := LoadRows(rows);
      originalExercises := customExercises;
    }

    /** `handleTemplateChange`: select the template and clear the deletion
        lists; a template that is found replaces both lists with its exercises,
        one that is not leaves them. */
    method HandleTemplateChange(templateId: string)
      modifies this
      ensures selectedTemplate == templateId
      ensures deletedExerciseIds == [] && deletedPageIds == []
      ensures Store.FindById(templates, templateId, TemplateIdOf).Some? ==>
                var t := Store.FindById(templates, templateId, TemplateIdOf).value;
                t in templates && t.id == templateId &&
                customExercises == FromTemplate(t) && originalExercises == FromTemplate(t)
      ensures Store.FindById(templates, templateId, TemplateIdOf).None? ==>
                customExercises == old(customExercises) && originalExercises == old(originalExercises)
    {
      selectedTemplate := templateId;
      deletedExerciseIds, deletedPageIds := [], [];
      var template := Store.FindById(templates, templateId, TemplateIdOf);
      if template.Some? {
        customExercises := FromTemplate(template.value);
        originalExercises := customExercises;
      }
    }

    /** `handleExercisesChange`: the new list is always adopted; in edit mode
        the deletion lists are recomputed against the original list, in
        create mode they are left alone. */
    method HandleExercisesChange(exercises: seq<CustomizableExercise>)
      modifies this
      ensures customExercises == exercises
      ensures selectedTemplate == old(selectedTemplate) && originalExercises == old(originalExercises)
      ensures IsCreateMode() ==> deletedPageIds == old(deletedPageIds) && deletedExerciseIds == old(deletedExerciseIds)
      ensures !IsCreateMode() ==>
                deletedPageIds == DeletedPages(originalExercises, exercises) &&
                deletedExerciseIds == DeletedExercises(originalExercises, exercises)
    {
      if !IsCreateMode() {
        var deletedPages := CollectMissing(Distinct(PageIds(originalExercises)), PageIds(exercises));
        var deletedExIds := CollectMissing(Distinct(TemplateExerciseIds(originalExercises)), ExerciseIds(exercises));
        deletedPageIds := deletedPages;
        deletedExerciseIds := deletedExIds;
      }
      customExercises := exercises;
    }

    /** `handleSave`: nothing without a selected template; otherwise one
        delete per tracked page id, in order, and then the parent's save. */
    method HandleSave() returns (calls: seq<SaveCall>)
      ensures selectedTemplate == "" ==> calls == []
      ensures selectedTemplate != "" ==>
                && |calls| == |deletedPageIds| + 1
                && (forall i :: 0 <= i < |deletedPageIds| ==> calls[i] == DeleteEntry(deletedPageIds[i]))
                && calls[|deletedPageIds|] == Save(selectedTemplate, customExercises, deletedExerciseIds)
    {
      if selectedTemplate == "" {
        return [];
      }
      calls := [];
      var i := 0;
      while i < |deletedPageIds|
        invariant 0 <= i <= |deletedPageIds|
        invariant |calls| == i && forall j :: 0 <= j < i ==> calls[j] == DeleteEntry(deletedPageIds[j])
      {
        calls := calls + [DeleteEntry(deletedPageIds[i])];
        i := i + 1;
      }
      calls := calls + [Save(selectedTemplate, customExercises, deletedExerciseIds)];
    }
  }

  /** Switching to a template and then saving without edits deletes no log
      entry and no template exercise. */
  lemma TemplateSwitchThenSave(t: TemplatesRoute.WorkoutTemplate)
    ensures DeletedPages(FromTemplate(t), FromTemplate(t)) == []
    ensures DeletedExercises(FromTemplate(t), FromTemplate(t)) == []
  {
    var es := FromTemplate(t);
    NoPageIds(es);
    var d := Distinct(TemplateExerciseIds(es));
    forall k | 0 <= k < |d| ensures !NotIn(ExerciseIds(es))(d[k]) {
      TemplateExerciseIdsMeaning(es, d[k]);
    }
    FilterNone(d, NotIn(ExerciseIds(es)));
  }
}
