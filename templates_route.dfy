/** GET /api/templates: every template with its exercises, assembled from the
    templates, template-exercises and exercises databases. */
module TemplatesRoute {
  import opened Wrappers
  import opened Seqs
  import opened Sorting
  import opened Store

  datatype TemplateExercise = TemplateExercise(
    exerciseId: string,
    exerciseName: string,
    defaultSets: int,
    defaultReps: int,
    order: int)

  datatype WorkoutTemplate = WorkoutTemplate(
    id: string,
    name: string,
    exercises: seq<TemplateExercise>,
    bodyGroups: seq<string>,
    estimatedTime: int)

  /** `new Map(pages.map(p => [p.id, name || ""]))`: every exercise page's id
      mapped to its name; of two pages with the same id the later one wins. */
  function ExerciseNames(pages: seq<ExercisePage>): map<string, string>
    decreases |pages|
  {
    if pages == [] then map[]
    else
      var last := pages[|pages| - 1];
      ExerciseNames(pages[..|pages| - 1])[last.id := FirstText(last.title)]
  }

  /** The map's keys are exactly the exercise pages' ids. */
  lemma {:induction false} ExerciseNamesKeys(pages: seq<ExercisePage>)
    ensures ExerciseNames(pages).Keys == set i | 0 <= i < |pages| :: pages[i].id
    decreases |pages|
  {
    if pages != [] {
      var init := pages[..|pages| - 1];
      ExerciseNamesKeys(init);
      assert forall i :: 0 <= i < |init| ==> init[i] == pages[i];
      var last := |pages| - 1;
      assert (set i | 0 <= i < |pages| :: pages[i].id) == (set i | 0 <= i < |init| :: init[i].id) + {pages[last].id};
    }
  }

  /** A page no later page shares its id with gives that id its name. */
  lemma {:induction false} ExerciseNamesLastWins(pages: seq<ExercisePage>, i: nat)
    requires i < |pages|
    requires forall j :: i < j < |pages| ==> pages[j].id != pages[i].id
    ensures pages[i].id in ExerciseNames(pages)
    ensures ExerciseNames(pages)[pages[i].id] == FirstText(pages[i].title)
    decreases |pages|
  {
    if i < |pages| - 1 {
      var init := pages[..|pages| - 1];
      assert init[i] == pages[i];
      ExerciseNamesLastWins(init, i);
    }
  }

  /** `exerciseMap.get(id) || ""`. */
  function ExerciseName(names: map<string, string>, id: string): string
  {
    if id in names then names[id] else ""
  }

  /** An exercise id that no exercise page has gets the name "". */
  lemma UnknownExerciseHasEmptyName(pages: seq<ExercisePage>, id: string)
    requires forall i :: 0 <= i < |pages| ==> pages[i].id != id
    ensures ExerciseName(ExerciseNames(pages), id) == ""
  {
    ExerciseNamesKeys(pages);
  }

  /** A record takes part only with both a template and an exercise relation. */
  predicate Kept(r: TemplateExercisePage)
  {
    Truthy(FirstId(r.template)) && Truthy(FirstId(r.exercise))
  }

  /** The record belongs to the group of template `k`: its first template id. */
  predicate InGroup(k: string, r: TemplateExercisePage)
  {
    Kept(r) && FirstId(r.template) == Some(k)
  }

  function InGroupOf(k: string): TemplateExercisePage -> bool
  {
    (r: TemplateExercisePage) => InGroup(k, r)
  }

  /** The entry pushed for a kept record: numbers default to 0 and the name
      comes from the exercise-name map. */
  function Entry(r: TemplateExercisePage, names: map<string, string>): TemplateExercise
  {
    var exerciseId := FirstId(r.exercise).GetOr("");
    TemplateExercise(exerciseId, ExerciseName(names, exerciseId),
                     OrZero(r.defaultSets), OrZero(r.defaultReps), OrZero(r.order))
  }

  function Entries(rs: seq<TemplateExercisePage>, names: map<string, string>): (es: seq<TemplateExercise>)
    ensures |es| == |rs| && forall i :: 0 <= i < |rs| ==> es[i] == Entry(rs[i], names)
  {
    seq(|rs|, i requires 0 <= i < |rs| => Entry(rs[i], names))
  }

  /** The group of template `k`: the entries of its records, in record order. */
  function Group(records: seq<TemplateExercisePage>, names: map<string, string>, k: string): seq<TemplateExercise>
  {
    Entries(Filter(records, InGroupOf(k)), names)
  }

  lemma EntriesAppend(a: seq<TemplateExercisePage>, b: seq<TemplateExercisePage>, names: map<string, string>)
    ensures Entries(a + b, names) == Entries(a, names) + Entries(b, names)
  {
    var l, r := Entries(a + b, names), Entries(a, names) + Entries(b, names);
    assert |l| == |r|;
    forall i | 0 <= i < |l| ensures l[i] == r[i] {
      if i < |a| {
        assert (a + b)[i] == a[i];
      } else {
        assert (a + b)[i] == b[i - |a|];
      }
    }
  }

  lemma GroupSnoc(records: seq<TemplateExercisePage>, r: TemplateExercisePage, names: map<string, string>, k: string)
    ensures Group(records + [r], names, k) == Group(records, names, k) + (if InGroup(k, r) then [Entry(r, names)] else [])
  {
    FilterAppend(records, [r], InGroupOf(k));
    var a, b := Filter(records, InGroupOf(k)), Filter([r], InGroupOf(k));
    assert b == if InGroup(k, r) then [r] else [];
    EntriesAppend(a, b, names);
  }

  /** `groups` is the grouping of `prefix`: a key for each template that has
      a kept record, holding that template's group. */
  ghost predicate GroupsOf(prefix: seq<TemplateExercisePage>, names: map<string, string>, groups: map<string, seq<TemplateExercise>>)
  {
    && (forall k :: k !in groups ==> Filter(prefix, InGroupOf(k)) == [])
    && (forall k :: k in groups ==> groups[k] == Group(prefix, names, k) != [])
  }

  /** One turn of the grouping loop. */
  function AddToGroups(groups: map<string, seq<TemplateExercise>>, r: TemplateExercisePage, names: map<string, string>)
    : map<string, seq<TemplateExercise>>
  {
    if Kept(r) then
      var k := FirstId(r.template).value;
      groups[k := (if k in groups then groups[k] else []) + [Entry(r, names)]]
    else groups
  }

  lemma GroupStep(prefix: seq<TemplateExercisePage>, r: TemplateExercisePage, names: map<string, string>,
                  groups: map<string, seq<TemplateExercise>>)
    requires GroupsOf(prefix, names, groups)
    ensures GroupsOf(prefix + [r], names, AddToGroups(groups, r, names))
  {
    var next := AddToGroups(groups, r, names);
    forall k ensures k in next ==> next[k] == Group(prefix + [r], names, k) != []
                 ensures k !in next ==> Filter(prefix + [r], InGroupOf(k)) == []
    {
      GroupSnoc(prefix, r, names, k);
      FilterAppend(prefix, [r], InGroupOf(k));
    }
  }

  /** A grouping has a key exactly for the templates some kept record names. */
  lemma GroupsOfKeys(records: seq<TemplateExercisePage>, names: map<string, string>, groups: map<string, seq<TemplateExercise>>)
    requires GroupsOf(records, names, groups)
    ensures forall k :: k in groups <==> exists i :: 0 <= i < |records| && InGroup(k, records[i])
  {
    forall k ensures k in groups <==> exists i :: 0 <= i < |records| && InGroup(k, records[i]) {
      var f := Filter(records, InGroupOf(k));
      if k in groups {
        assert f[0] in records && InGroup(k, f[0]);
      } else {
        assert f == [];
      }
    }
  }

  /** The body of the grouping loop: a record with both relations is pushed
      onto its template's list, which starts empty. */
  method AddRecord(groups: map<string, seq<TemplateExercise>>, r: TemplateExercisePage, names: map<string, string>)
    returns (next: map<string, seq<TemplateExercise>>)
    ensures next == AddToGroups(groups, r, names)
  {
    next := groups;
    var templateId := FirstId(r.template);
    var exerciseId := FirstId(r.exercise);
    if Truthy(templateId) && Truthy(exerciseId) {
      var k := templateId.value;
      var current := if k in groups then groups[k] else [];
      next := groups[k := current + [Entry(r, names)]];
    }
  }

  /** The grouping loop: a map from template id to the entries of the kept
      records whose first template id it is, in the order of `records`. */
  method GroupByTemplate(records: seq<TemplateExercisePage>, names: map<string, string>)
    returns (groups: map<string, seq<TemplateExercise>>)
    ensures forall k :: k in groups <==> exists i :: 0 <= i < |records| && InGroup(k, records[i])
    ensures forall k :: k in groups ==> groups[k] == Group(records, names, k)
  {
    groups := map[];
    var i := 0;
    while i < |records|
      invariant 0 <= i <= |records|
      invariant GroupsOf(records[..i], names, groups)
    {
      var r := records[i];
      GroupStep(records[..i], r, names, groups);
      groups := AddRecord(groups, r, names);
      assert records[..i + 1] == records[..i] + [r];
      i := i + 1;
    }
    assert records[..i] == records;
    GroupsOfKeys(records, names, groups);
    assert forall k :: k in groups ==> groups[k] == Group(records, names, k);
  }

  function OrderOf(e: TemplateExercise): int { e.order }

  /** One element of the response. A template without a group gets []. */
  function AssembleTemplate(p: TemplatePage, groups: map<string, seq<TemplateExercise>>): WorkoutTemplate
  {
    WorkoutTemplate(p.id, FirstText(p.title),
                    SortBy(if p.id in groups then groups[p.id] else [], OrderOf),
                    Ids(p.bodyGroups), OrZero(p.estimatedTime))
  }

  /** The handler. The templates query's sort by Name is the store's order. */
  method GetTemplates(ws: Workspace) returns (r: seq<WorkoutTemplate>)
    ensures |r| == |ws.templates|
    ensures forall i :: 0 <= i < |r| ==>
              var p := ws.templates[i];
              && r[i].id == p.id
              && r[i].name == FirstText(p.title)
              && r[i].bodyGroups == Ids(p.bodyGroups)
              && r[i].estimatedTime == OrZero(p.estimatedTime)
              && r[i].exercises == SortBy(Group(SortBy(ws.templateExercises, PageOrder), ExerciseNames(ws.exercises), p.id), OrderOf)
  {
    var records := SortBy(ws.templateExercises, PageOrder);
    var names := ExerciseNames(ws.exercises);
    var groups := GroupByTemplate(records, names);
    r := seq(|ws.templates|, i requires 0 <= i < |ws.templates| => AssembleTemplate(ws.templates[i], groups));
    forall i | 0 <= i < |r|
      ensures r[i].exercises == SortBy(Group(records, names, ws.templates[i].id), OrderOf)
    {
      var k := ws.templates[i].id;
      if k !in groups {
        FilterNone(records, InGroupOf(k));
      }
    }
  }

  /** Each template's exercises are sorted by order, are a permutation of its
      group, and keep the group's order among equal orders. */
  lemma TemplateExercisesSorted(records: seq<TemplateExercisePage>, names: map<string, string>, k: string, v: int)
    ensures SortedBy(SortBy(Group(records, names, k), OrderOf), OrderOf)
    ensures multiset(SortBy(Group(records, names, k), OrderOf)) == multiset(Group(records, names, k))
    ensures WithKey(SortBy(Group(records, names, k), OrderOf), OrderOf, v) == WithKey(Group(records, names, k), OrderOf, v)
  {
    SortBySortedAndPermutation(Group(records, names, k), OrderOf);
    SortByStable(Group(records, names, k), OrderOf, v);
  }

  /** Every kept record's entry is in the group of its first template id. */
  lemma KeptRecordIsGrouped(records: seq<TemplateExercisePage>, names: map<string, string>, i: nat)
    requires i < |records| && Kept(records[i])
    ensures Entry(records[i], names) in Group(records, names, FirstId(records[i].template).value)
  {
    var k := FirstId(records[i].template).value;
    var f := Filter(records, InGroupOf(k));
    assert InGroupOf(k)(records[i]);
    var j :| 0 <= j < |f| && f[j] == records[i];
    assert Group(records, names, k)[j] == Entry(records[i], names);
  }

  /** The number of records sitting in the groups of `keys`. */
  function GroupedCount(records: seq<TemplateExercisePage>, keys: seq<string>): nat
    decreases |keys|
  {
    if keys == [] then 0 else Count(records, InGroupOf(keys[0])) + GroupedCount(records, keys[1..])
  }

  /** In how many of the groups of `keys` the record sits. */
  function Hits(r: TemplateExercisePage, keys: seq<string>): nat
    decreases |keys|
  {
    if keys == [] then 0 else (if InGroup(keys[0], r) then 1 else 0) + Hits(r, keys[1..])
  }

  lemma {:induction false} HitsAtMostOne(r: TemplateExercisePage, keys: seq<string>)
    requires NoDuplicates(keys)
    ensures Hits(r, keys) == if Kept(r) && FirstId(r.template).value in keys then 1 else 0
    decreases |keys|
  {
    if keys != [] {
      assert NoDuplicates(keys[1..]);
      HitsAtMostOne(r, keys[1..]);
      assert keys == [keys[0]] + keys[1..];
    }
  }

  lemma {:induction false} GroupedCountCons(r: TemplateExercisePage, rest: seq<TemplateExercisePage>, keys: seq<string>)
    ensures GroupedCount([r] + rest, keys) == Hits(r, keys) + GroupedCount(rest, keys)
    decreases |keys|
  {
    if keys != [] {
      assert ([r] + rest)[1..] == rest;
      GroupedCountCons(r, rest, keys[1..]);
    }
  }

  /** The groups partition the kept records: over distinct keys covering every
      kept record, the group sizes add up to the number of kept records, so
      each kept record lands in exactly one group and a dropped one in none. */
  lemma {:induction false} GroupsPartitionKept(records: seq<TemplateExercisePage>, keys: seq<string>)
    requires NoDuplicates(keys)
    requires forall i :: 0 <= i < |records| && Kept(records[i]) ==> FirstId(records[i].template).value in keys
    ensures GroupedCount(records, keys) == Count(records, Kept)
    decreases |records|
  {
    if records == [] {
      GroupedCountEmpty(keys);
    } else {
      var r, rest := records[0], records[1..];
      assert records == [r] + rest;
      GroupsPartitionKept(rest, keys);
      GroupedCountCons(r, rest, keys);
      HitsAtMostOne(r, keys);
    }
  }

  lemma {:induction false} GroupedCountEmpty(keys: seq<string>)
    ensures GroupedCount([], keys) == 0
    decreases |keys|
  {
    if keys != [] {
      GroupedCountEmpty(keys[1..]);
    }
  }
}
