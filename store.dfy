/** The external record store, reduced to what the routes read and write: one
    typed record per page of each database, and a workspace object holding the
    two databases the routes change in place. A query returns every live
    (non-archived) page that satisfies its filter, in store order. */
module Store {
  import opened Wrappers
  import opened Seqs

  /** A page of the weekly workout log: one exercise on one date. `title` holds
      the plain-text segments of the Name title; a relation or number property
      that is absent is None. */
  datatype WeeklyPage = WeeklyPage(
    id: string,
    title: seq<string>,
    date: Option<string>,
    exercises: Option<seq<string>>,
    workoutTemplate: Option<seq<string>>,
    templateExercise: Option<seq<string>>,
    totalSets: Option<int>,
    totalReps: Option<int>,
    maxWeight: Option<int>,
    archived: bool)

  /** A page of the daily workout log: the completion flag of one day. */
  datatype DailyPage = DailyPage(id: string, title: seq<string>, date: Option<string>, completed: bool)

  /** A page of the templates database. */
  datatype TemplatePage = TemplatePage(
    id: string,
    title: seq<string>,
    bodyGroups: Option<seq<string>>,
    estimatedTime: Option<int>)

  /** A page of the template-exercises database: one exercise of one template. */
  datatype TemplateExercisePage = TemplateExercisePage(
    id: string,
    title: seq<string>,
    template: Option<seq<string>>,
    exercise: Option<seq<string>>,
    defaultSets: Option<int>,
    defaultReps: Option<int>,
    order: Option<int>)

  /** A page of the exercises database. `best` is the "Best" number property;
      `lowercaseBest` is a property literally named "best", which the schema
      normally does not have. */
  datatype ExercisePage = ExercisePage(
    id: string,
    title: seq<string>,
    bodyGroup: Option<seq<string>>,
    best: Option<int>,
    lowercaseBest: Option<int>)

  datatype BodyGroupPage = BodyGroupPage(id: string, title: seq<string>)

  /** `title?.[0]?.plain_text || ""`: the first text segment, or "". */
  function FirstText(title: seq<string>): string
  {
    if |title| > 0 then title[0] else ""
  }

  /** `relation?.[0]?.id`: the first related id, None when the property is
      absent or empty. */
  function FirstId(relation: Option<seq<string>>): Option<string>
  {
    if relation.Some? && |relation.value| > 0 then Some(relation.value[0]) else None
  }

  /** `relation?.map(r => r.id) || []`. */
  function Ids(relation: Option<seq<string>>): seq<string>
  {
    relation.GetOr([])
  }

  /** A string the app tests with `if (x)`: present and not "". */
  predicate Truthy(s: Option<string>)
  {
    s.Some? && s.value != ""
  }

  /** `number || 0` on a number property (JavaScript numbers as integers; NaN
      does not occur in the store). */
  function OrZero(n: Option<int>): int
  {
    n.GetOr(0)
  }

  /** The filter `relation: { contains: id }`. */
  predicate RelationContains(relation: Option<seq<string>>, id: string)
  {
    relation.Some? && id in relation.value
  }

  /** Date strings compared as the store compares ISO dates: lexicographically. */
  predicate DateLessEq(a: string, b: string)
    decreases |a|
  {
    if a == [] then true
    else if b == [] then false
    else if a[0] != b[0] then a[0] < b[0]
    else DateLessEq(a[1..], b[1..])
  }

  /** The filter `{ on_or_after: start }` and `{ on_or_before: end }`. */
  predicate DateInRange(date: Option<string>, start: string, end: string)
  {
    date.Some? && DateLessEq(start, date.value) && DateLessEq(date.value, end)
  }

  predicate DistinctIds(ids: seq<string>)
  {
    NoDuplicates(ids)
  }

  function WeeklyIds(pages: seq<WeeklyPage>): (ids: seq<string>)
    ensures |ids| == |pages| && forall i :: 0 <= i < |pages| ==> ids[i] == pages[i].id
  {
    seq(|pages|, i requires 0 <= i < |pages| => pages[i].id)
  }

  function DailyIds(pages: seq<DailyPage>): (ids: seq<string>)
    ensures |ids| == |pages| && forall i :: 0 <= i < |pages| ==> ids[i] == pages[i].id
  {
    seq(|pages|, i requires 0 <= i < |pages| => pages[i].id)
  }

  /** `pages.retrieve({ page_id: id })`: the page with that id, None when the
      store has none (the call then throws). */
  function FindById<T>(pages: seq<T>, id: string, idOf: T -> string): (r: Option<T>)
    ensures r.None? <==> forall i :: 0 <= i < |pages| ==> idOf(pages[i]) != id
    ensures r.Some? ==> idOf(r.value) == id && r.value in pages
    decreases |pages|
  {
    if pages == [] then None
    else if idOf(pages[0]) == id then Some(pages[0])
    else FindById(pages[1..], id, idOf)
  }

  function TemplatePageId(p: TemplatePage): string { p.id }
  function ExercisePageId(p: ExercisePage): string { p.id }
  function BodyGroupPageId(p: BodyGroupPage): string { p.id }

  /** The key of a template-exercises query sorted by Order, ascending (an
      empty Order counts as 0). */
  function PageOrder(r: TemplateExercisePage): int { OrZero(r.order) }

  /** The length of the longest string in `ids`. */
  function MaxLength(ids: seq<string>): (n: nat)
    ensures forall i :: 0 <= i < |ids| ==> |ids[i]| <= n
    decreases |ids|
  {
    if ids == [] then 0
    else
      var rest := MaxLength(ids[1..]);
      if |ids[0]| > rest then |ids[0]| else rest
  }

  /** An id the store can assign to a new page: longer than every existing id,
      hence different from all of them. */
  function FreshId(ids: seq<string>): (r: string)
    ensures r !in ids
  {
    var r := seq(MaxLength(ids) + 1, _ => 'p');
    assert forall i :: 0 <= i < |ids| ==> |ids[i]| < |r|;
    r
  }

  /** The store's `pages.update` of one weekly page: `patch` is applied to
      the page whose id is `id`. */
  function UpdateWeekly(pages: seq<WeeklyPage>, id: string, patch: WeeklyPage -> WeeklyPage): (r: seq<WeeklyPage>)
    ensures |r| == |pages|
    ensures forall i :: 0 <= i < |pages| ==> r[i] == if pages[i].id == id then patch(pages[i]) else pages[i]
  {
    seq(|pages|, i requires 0 <= i < |pages| => if pages[i].id == id then patch(pages[i]) else pages[i])
  }

  function UpdateDaily(pages: seq<DailyPage>, id: string, patch: DailyPage -> DailyPage): (r: seq<DailyPage>)
    ensures |r| == |pages|
    ensures forall i :: 0 <= i < |pages| ==> r[i] == if pages[i].id == id then patch(pages[i]) else pages[i]
  {
    seq(|pages|, i requires 0 <= i < |pages| => if pages[i].id == id then patch(pages[i]) else pages[i])
  }

  function Archive(p: WeeklyPage): WeeklyPage { p.(archived := true) }

  function RedateWeekly(to: string): WeeklyPage -> WeeklyPage
  {
    (p: WeeklyPage) => p.(date := Some(to))
  }

  function RedateDaily(to: string): DailyPage -> DailyPage
  {
    (p: DailyPage) => p.(date := Some(to))
  }

  /** The databases the routes use. The weekly and daily logs are changed in
      place; the other databases are only read. Page ids are distinct within
      each log. */
  class Workspace {
    var weekly: seq<WeeklyPage>
    var daily: seq<DailyPage>
    const templates: seq<TemplatePage>
    const templateExercises: seq<TemplateExercisePage>
    const exercises: seq<ExercisePage>
    const bodyGroups: seq<BodyGroupPage>

    ghost predicate Valid()
      reads this
    {
      DistinctIds(WeeklyIds(weekly)) && DistinctIds(DailyIds(daily))
    }

    constructor (weekly: seq<WeeklyPage>, daily: seq<DailyPage>, templates: seq<TemplatePage>,
                 templateExercises: seq<TemplateExercisePage>, exercises: seq<ExercisePage>,
                 bodyGroups: seq<BodyGroupPage>)
      requires DistinctIds(WeeklyIds(weekly)) && DistinctIds(DailyIds(daily))
      ensures Valid()
      ensures this.weekly == weekly && this.daily == daily && this.templates == templates
      ensures this.templateExercises == templateExercises && this.exercises == exercises
      ensures this.bodyGroups == bodyGroups
    {
      this.weekly := weekly;
      this.daily := daily;
      this.templates := templates;
      this.templateExercises := templateExercises;
      this.exercises := exercises;
      this.bodyGroups := bodyGroups;
    }
  }

  /** Updating pages by id with a patch that keeps ids keeps the ids. */
  lemma UpdateWeeklyKeepsIds(pages: seq<WeeklyPage>, id: string, patch: WeeklyPage -> WeeklyPage)
    requires forall p :: patch(p).id == p.id
    ensures WeeklyIds(UpdateWeekly(pages, id, patch)) == WeeklyIds(pages)
  {
  }

  lemma UpdateDailyKeepsIds(pages: seq<DailyPage>, id: string, patch: DailyPage -> DailyPage)
    requires forall p :: patch(p).id == p.id
    ensures DailyIds(UpdateDaily(pages, id, patch)) == DailyIds(pages)
  {
  }

  /** Adding a page whose id is new keeps the ids distinct. */
  lemma AddWeeklyKeepsDistinct(pages: seq<WeeklyPage>, p: WeeklyPage)
    requires DistinctIds(WeeklyIds(pages)) && p.id !in WeeklyIds(pages)
    ensures DistinctIds(WeeklyIds(pages + [p]))
  {
    var ids := WeeklyIds(pages + [p]);
    forall i, j | 0 <= i < j < |ids| ensures ids[i] != ids[j] {
      if j == |pages| {
        assert ids[i] == WeeklyIds(pages)[i];
      } else {
        assert ids[i] == WeeklyIds(pages)[i] && ids[j] == WeeklyIds(pages)[j];
      }
    }
  }

  /** With distinct ids, updating the page with the id of index `k` changes
      that page only. */
  lemma UpdateWeeklyAt(pages: seq<WeeklyPage>, k: nat, patch: WeeklyPage -> WeeklyPage)
    requires DistinctIds(WeeklyIds(pages)) && k < |pages|
    ensures forall i :: 0 <= i < |pages| ==>
              UpdateWeekly(pages, pages[k].id, patch)[i] == if i == k then patch(pages[k]) else pages[i]
  {
    assert forall i :: 0 <= i < |pages| && i != k ==> WeeklyIds(pages)[i] != WeeklyIds(pages)[k];
  }

  lemma UpdateDailyAt(pages: seq<DailyPage>, k: nat, patch: DailyPage -> DailyPage)
    requires DistinctIds(DailyIds(pages)) && k < |pages|
    ensures forall i :: 0 <= i < |pages| ==>
              UpdateDaily(pages, pages[k].id, patch)[i] == if i == k then patch(pages[k]) else pages[i]
  {
    assert forall i :: 0 <= i < |pages| && i != k ==> DailyIds(pages)[i] != DailyIds(pages)[k];
  }

  /** The ids of the query results for the filter `p`, in store order. */
  function MatchingIds(pages: seq<WeeklyPage>, p: WeeklyPage -> bool): (ids: seq<string>)
    ensures |ids| == Count(pages, p)
    ensures forall id :: id in ids ==> exists j :: 0 <= j < |pages| && pages[j].id == id && p(pages[j])
    decreases |pages|
  {
    if pages == [] then []
    else
      var rest := MatchingIds(pages[1..], p);
      assert forall id :: id in rest ==> exists j :: 0 <= j < |pages| && pages[j].id == id && p(pages[j]) by {
        forall id | id in rest ensures exists j :: 0 <= j < |pages| && pages[j].id == id && p(pages[j]) {
          var j :| 0 <= j < |pages| - 1 && pages[1..][j].id == id && p(pages[1..][j]);
          assert pages[j + 1] == pages[1..][j];
        }
      }
      if p(pages[0]) then [pages[0].id] + rest else rest
  }

  /** With distinct ids, a page's id is among the matching ids exactly when
      the page satisfies the filter. */
  lemma {:induction false} MatchingId(pages: seq<WeeklyPage>, p: WeeklyPage -> bool, i: nat)
    requires DistinctIds(WeeklyIds(pages)) && i < |pages|
    ensures pages[i].id in MatchingIds(pages, p) <==> p(pages[i])
    decreases |pages|
  {
    var tail := pages[1..];
    assert DistinctIds(WeeklyIds(tail)) by {
      assert forall k :: 0 <= k < |tail| ==> WeeklyIds(tail)[k] == WeeklyIds(pages)[k + 1];
    }
    if i > 0 {
      MatchingId(tail, p, i - 1);
      assert tail[i - 1] == pages[i];
      assert WeeklyIds(pages)[i] != WeeklyIds(pages)[0];
    }
  }

  lemma {:induction false} MatchingIdsExactly(pages: seq<WeeklyPage>, p: WeeklyPage -> bool)
    requires DistinctIds(WeeklyIds(pages))
    ensures forall i :: 0 <= i < |pages| ==> (pages[i].id in MatchingIds(pages, p) <==> p(pages[i]))
  {
    forall i | 0 <= i < |pages| ensures pages[i].id in MatchingIds(pages, p) <==> p(pages[i]) {
      MatchingId(pages, p, i);
    }
  }

  /** `for (const page of results) await notion.pages.update(page.id, ...)`:
      the patch applied, one id after the other, to each page whose id is in
      `ids`; the patch keeps ids and applying it twice is applying it once. */
  method UpdateEachWeekly(ws: Workspace, ids: seq<string>, patch: WeeklyPage -> WeeklyPage)
    requires ws.Valid()
    requires forall p :: patch(p).id == p.id && patch(patch(p)) == patch(p)
    modifies ws
    ensures ws.Valid() && ws.daily == old(ws.daily)
    ensures WeeklyIds(ws.weekly) == WeeklyIds(old(ws.weekly))
    ensures |ws.weekly| == |old(ws.weekly)|
    ensures forall i :: 0 <= i < |ws.weekly| ==>
              ws.weekly[i] == if old(ws.weekly)[i].id in ids then patch(old(ws.weekly)[i]) else old(ws.weekly)[i]
  {
    var k := 0;
    while k < |ids|
      invariant 0 <= k <= |ids|
      invariant ws.Valid() && ws.daily == old(ws.daily)
      invariant WeeklyIds(ws.weekly) == WeeklyIds(old(ws.weekly))
      invariant |ws.weekly| == |old(ws.weekly)|
      invariant forall i :: 0 <= i < |ws.weekly| ==>
                  ws.weekly[i] == if old(ws.weekly)[i].id in ids[..k] then patch(old(ws.weekly)[i]) else old(ws.weekly)[i]
    {
      UpdateWeeklyKeepsIds(ws.weekly, ids[k], patch);
      ws.weekly := UpdateWeekly(ws.weekly, ids[k], patch);
      assert ids[..k + 1] == ids[..k] + [ids[k]];
      k := k + 1;
    }
    assert ids[..k] == ids;
  }
}
