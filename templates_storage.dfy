/** The in-process template list: a module-level array of workout templates,
    seeded with eleven templates and changed in place by create (push), update
    (index assignment) and delete (splice). */
module TemplatesStorage {
  import opened Wrappers
  import opened Seqs
  import JsNumbers

  datatype TemplateExercise = TemplateExercise(
    exerciseId: string,
    exerciseName: string,
    defaultSets: int,
    defaultReps: int)

  datatype Template = Template(
    id: string,
    name: string,
    bodyGroups: seq<string>,
    exercises: seq<TemplateExercise>)

  /** The argument of `createTemplate`: a template without its id. */
  datatype NewTemplate = NewTemplate(name: string, bodyGroups: seq<string>, exercises: seq<TemplateExercise>)

  /** The argument of `updateTemplate`: each field either absent (None) or
      given. */
  datatype TemplatePatch = TemplatePatch(
    id: Option<string>,
    name: Option<string>,
    bodyGroups: Option<seq<string>>,
    exercises: Option<seq<TemplateExercise>>)

  function Ids(ts: seq<Template>): (ids: seq<string>)
    ensures |ids| == |ts| && forall i :: 0 <= i < |ts| ==> ids[i] == ts[i].id
  {
    seq(|ts|, i requires 0 <= i < |ts| => ts[i].id)
  }

  /** A seed exercise; the seed leaves every exercise id empty. */
  function Seeded(name: string, sets: int, reps: int): TemplateExercise
  {
    TemplateExercise("", name, sets, reps)
  }

  /** The eleven seed templates, with ids "1" to "11". */
  function SeedTemplates(): (ts: seq<Template>)
    ensures |ts| == 11
    ensures Ids(ts) == ["1", "2", "3", "4", "5", "6", "7", "8", "9", "10", "11"]
    ensures NoDuplicates(Ids(ts))
  {
    [ Template("1", "Chest & Triceps", [],
        [Seeded("Bench Press", 3, 10), Seeded("Push-ups", 3, 15), Seeded("Tricep Dips", 3, 12),
         Seeded("Skull Crushers", 3, 10)]),
      Template("2", "Back & Biceps", [],
        [Seeded("Pull-ups", 3, 10), Seeded("Rows", 3, 12), Seeded("Bicep Curls", 3, 12),
         Seeded("Hammer Curls", 3, 12)]),
      Template("3", "Back", [], [Seeded("Pull-ups", 3, 10), Seeded("Rows", 3, 12)]),
      Template("4", "Biceps", [], [Seeded("Bicep Curls", 3, 12), Seeded("Hammer Curls", 3, 12)]),
      Template("5", "Shoulders", [], [Seeded("Shoulder Press", 3, 10), Seeded("Lateral Raises", 3, 12)]),
      Template("6", "Legs", [], [Seeded("Squats", 4, 10), Seeded("Lunges", 3, 12)]),
      Template("7", "Shoulders & Legs", [],
        [Seeded("Shoulder Press", 3, 10), Seeded("Lateral Raises", 3, 12), Seeded("Squats", 4, 10),
         Seeded("Lunges", 3, 12)]),
      Template("8", "Shoulders & Triceps", [],
        [Seeded("Shoulder Press", 3, 10), Seeded("Lateral Raises", 3, 12), Seeded("Tricep Dips", 3, 12),
         Seeded("Skull Crushers", 3, 10)]),
      Template("9", "Core", [], [Seeded("Planks", 3, 60), Seeded("Crunches", 3, 20)]),
      Template("10", "Climbing", [], [Seeded("Bouldering", 1, 1)]),
      Template("11", "Full Body", [],
        [Seeded("Squats", 4, 10), Seeded("Bench Press", 3, 10), Seeded("Pull-ups", 3, 10),
         Seeded("Shoulder Press", 3, 10), Seeded("Rows", 3, 12), Seeded("Planks", 3, 60)]) ]
  }

  /** `findIndex(t => t.id === id)`: the first position holding `id`, None for -1. */
  function FindIndex(ts: seq<Template>, id: string): (r: Option<nat>)
    ensures r.Some? ==> r.value < |ts| && ts[r.value].id == id
    ensures r.Some? ==> forall j :: 0 <= j < r.value ==> ts[j].id != id
    ensures r.None? <==> forall j :: 0 <= j < |ts| ==> ts[j].id != id
    decreases |ts|
  {
    if ts == [] then None
    else if ts[0].id == id then Some(0)
    else match FindIndex(ts[1..], id)
      case None => None
      case Some(k) => Some(k + 1)
  }

  /** `find(t => t.id === id)`: the first template holding `id`. */
  function Find(ts: seq<Template>, id: string): (r: Option<Template>)
    ensures r.None? <==> forall j :: 0 <= j < |ts| ==> ts[j].id != id
    ensures r.Some? ==> exists i :: 0 <= i < |ts| && ts[i] == r.value && ts[i].id == id &&
                          forall j :: 0 <= j < i ==> ts[j].id != id
  {
    match FindIndex(ts, id)
    case None => None
    case Some(i) => Some(ts[i])
  }

  /** `{ ...t, ...patch }`: each field given in the patch replaces the stored one. */
  function Merge(t: Template, patch: TemplatePatch): Template
  {
    Template(patch.id.GetOr(t.id), patch.name.GetOr(t.name), patch.bodyGroups.GetOr(t.bodyGroups),
             patch.exercises.GetOr(t.exercises))
  }

  /** `splice(i, 1)`. */
  function RemoveAt<T>(s: seq<T>, i: nat): seq<T>
    requires i < |s|
  {
    s[..i] + s[i + 1..]
  }

  /** Merging an empty patch changes nothing, and merging the same patch twice
      is the same as merging it once. */
  lemma MergeProperties(t: Template, patch: TemplatePatch)
    ensures Merge(t, TemplatePatch(None, None, None, None)) == t
    ensures Merge(Merge(t, patch), patch) == Merge(t, patch)
    ensures patch.id.Some? ==> Merge(t, patch).id == patch.id.value
    ensures patch.id.None? ==> Merge(t, patch).id == t.id
    ensures patch.name.Some? ==> Merge(t, patch).name == patch.name.value
    ensures patch.name.None? ==> Merge(t, patch).name == t.name
    ensures patch.bodyGroups.Some? ==> Merge(t, patch).bodyGroups == patch.bodyGroups.value
    ensures patch.bodyGroups.None? ==> Merge(t, patch).bodyGroups == t.bodyGroups
    ensures patch.exercises.Some? ==> Merge(t, patch).exercises == patch.exercises.value
    ensures patch.exercises.None? ==> Merge(t, patch).exercises == t.exercises
  {
  }

  /** Removing position `i` shortens the sequence by one, drops exactly that
      element and keeps the others in their relative order. */
  lemma RemoveAtProperties<T>(s: seq<T>, i: nat)
    requires i < |s|
    ensures |RemoveAt(s, i)| == |s| - 1
    ensures forall j :: 0 <= j < i ==> RemoveAt(s, i)[j] == s[j]
    ensures forall j :: i <= j < |s| - 1 ==> RemoveAt(s, i)[j] == s[j + 1]
    ensures multiset(RemoveAt(s, i)) + multiset{s[i]} == multiset(s)
  {
    assert s == s[..i] + [s[i]] + s[i + 1..];
  }

  /** After an append, a lookup of the new template's id finds the new template
      unless an earlier template already holds that id: ids are not checked for
      uniqueness. */
  lemma FindAfterAppend(ts: seq<Template>, t: Template)
    ensures Find(ts + [t], t.id) == if Find(ts, t.id).Some? then Find(ts, t.id) else Some(t)
  {
    var s := ts + [t];
    match FindIndex(ts, t.id)
    case Some(i) =>
      assert FindIndex(s, t.id) == Some(i) by { FindIndexPrefix(ts, [t], t.id); }
    case None =>
      assert FindIndex(s, t.id) == Some(|ts|) by { FindIndexPrefix(ts, [t], t.id); }
  }

  /** A lookup in `a + b` finds the first match in `a`, or else the first in
      `b`, shifted. */
  lemma {:induction false} FindIndexPrefix(a: seq<Template>, b: seq<Template>, id: string)
    ensures FindIndex(a + b, id) ==
              match FindIndex(a, id)
              case Some(i) => Some(i)
              case None =>
                match FindIndex(b, id)
                case Some(k) => Some(|a| + k)
                case None => None
    decreases |a|
  {
    if a == [] {
      assert a + b == b;
    } else {
      assert (a + b)[1..] == a[1..] + b;
      FindIndexPrefix(a[1..], b, id);
    }
  }

  /** With distinct ids, deleting the template holding `id` leaves no template
      holding it. */
  lemma DeleteRemovesId(ts: seq<Template>, id: string)
    requires NoDuplicates(Ids(ts))
    requires FindIndex(ts, id).Some?
    ensures FindIndex(RemoveAt(ts, FindIndex(ts, id).value), id).None?
  {
    var i := FindIndex(ts, id).value;
    RemoveAtProperties(ts, i);
    var r := RemoveAt(ts, i);
    forall j | 0 <= j < |r| ensures r[j].id != id {
      if j >= i {
        assert Ids(ts)[j + 1] != Ids(ts)[i];
      }
    }
  }

  /** The template list. Ids are whatever callers supply: nothing keeps them
      distinct. */
  class TemplateRepository {
    var templates: seq<Template>

    /** The list as the module initialises it. */
    constructor ()
      ensures templates == SeedTemplates()
    {
      templates := SeedTemplates();
    }

    /** `getTemplates`. */
    method GetTemplates() returns (r: seq<Template>)
      ensures r == templates
    {
      r := templates;
    }

    /** `getTemplateById`: the first template with that id, None for undefined. */
    method GetTemplateById(id: string) returns (r: Option<Template>)
      ensures r == Find(templates, id)
    {
      r := Find(templates, id);
    }

    /** `createTemplate`: the new id is the current time in milliseconds
        (`now`), rendered in decimal; the template is appended and returned. */
    method CreateTemplate(t: NewTemplate, now: nat) returns (r: Template)
      modifies this
      ensures r == Template(JsNumbers.DecimalString(now), t.name, t.bodyGroups, t.exercises)
      ensures templates == old(templates) + [r]
      ensures templates[|templates| - 1] == r
      ensures forall j :: 0 <= j < |old(templates)| ==> templates[j] == old(templates)[j]
    {
      r := Template(JsNumbers.DecimalString(now), t.name, t.bodyGroups, t.exercises);
      templates := templates + [r];
    }

    /** `updateTemplate`: None (null) and no change when no template holds the
        id; otherwise the first one holding it is merged with the patch in
        place and the stored result is returned. */
    method UpdateTemplate(id: string, patch: TemplatePatch) returns (r: Option<Template>)
      modifies this
      ensures FindIndex(old(templates), id).None? ==> r.None? && templates == old(templates)
      ensures FindIndex(old(templates), id).Some? ==>
                var i := FindIndex(old(templates), id).value;
                && |templates| == |old(templates)|
                && templates[i] == Merge(old(templates)[i], patch)
                && (forall j :: 0 <= j < |templates| && j != i ==> templates[j] == old(templates)[j])
                && r == Some(templates[i])
    {
      var index := FindIndex(templates, id);
      if index.None? {
        return None;
      }
      var i := index.value;
      templates := templates[i := Merge(templates[i], patch)];
      r := Some(templates[i]);
    }

    /** `deleteTemplate`: false and no change when no template holds the id;
        otherwise the first one holding it is spliced out and true returned. */
    method DeleteTemplate(id: string) returns (deleted: bool)
      modifies this
      ensures deleted <==> FindIndex(old(templates), id).Some?
      ensures !deleted ==> templates == old(templates)
      ensures deleted ==> templates == RemoveAt(old(templates), FindIndex(old(templates), id).value)
    {
      var index := FindIndex(templates, id);
      if index.None? {
        return false;
      }
      templates := RemoveAt(templates, index.value);
      deleted := true;
    }
  }
}
