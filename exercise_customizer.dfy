/** The exercise-list editor: which exercises can still be offered, removing an
    entry by its key, adding the selected exercise, and the add form's state. */
module ExerciseCustomizer {
  import opened Wrappers
  import opened Seqs
  import JsNumbers

  /** An entry of the list being edited. Entries loaded from the weekly log
      carry the page id of their log entry; entries from a template do not. */
  datatype CustomizableExercise = CustomizableExercise(
    pageId: Option<string>,
    exerciseId: string,
    exerciseName: string,
    defaultSets: int,
    defaultReps: int)

  datatype AvailableExercise = AvailableExercise(id: string, name: string, bodyGroupName: Option<string>)

  /** `ex.pageId || ex.exerciseId`: the page id when present and non-empty. */
  function Key(ex: CustomizableExercise): string
  {
    if ex.pageId.Some? && ex.pageId.value != "" then ex.pageId.value else ex.exerciseId
  }

  /** `exercises.some(e => e.exerciseId === id)`. */
  predicate Listed(exercises: seq<CustomizableExercise>, id: string)
  {
    exists i :: 0 <= i < |exercises| && exercises[i].exerciseId == id
  }

  /** `filtered`: the available exercises not yet in the list, in their order. */
  function Filtered(available: seq<AvailableExercise>, exercises: seq<CustomizableExercise>): (r: seq<AvailableExercise>)
    ensures forall i :: 0 <= i < |r| ==> r[i] in available && !Listed(exercises, r[i].id)
    ensures forall i :: 0 <= i < |available| && !Listed(exercises, available[i].id) ==> available[i] in r
  {
    Filter(available, (a: AvailableExercise) => !Listed(exercises, a.id))
  }

  /** `removeExercise(identifier)`: the entries whose key differs, in order. */
  function RemoveExercise(exercises: seq<CustomizableExercise>, identifier: string): (r: seq<CustomizableExercise>)
    ensures forall i :: 0 <= i < |r| ==> r[i] in exercises && Key(r[i]) != identifier
    ensures forall i :: 0 <= i < |exercises| && Key(exercises[i]) != identifier ==> exercises[i] in r
  {
    Filter(exercises, (e: CustomizableExercise) => Key(e) != identifier)
  }

  /** `availableExercises.find(ex => ex.id === id)`. */
  function FindAvailable(available: seq<AvailableExercise>, id: string): (r: Option<AvailableExercise>)
    ensures r.None? <==> forall i :: 0 <= i < |available| ==> available[i].id != id
    ensures r.Some? ==> exists i :: 0 <= i < |available| && available[i] == r.value && r.value.id == id &&
                          forall j :: 0 <= j < i ==> available[j].id != id
    decreases |available|
  {
    if available == [] then None
    else if available[0].id == id then Some(available[0])
    else
      var r := FindAvailable(available[1..], id);
      assert r.Some? ==> exists i :: 1 <= i < |available| && available[i] == r.value && r.value.id == id &&
                           forall j :: 0 <= j < i ==> available[j].id != id by {
        if r.Some? {
          var k :| 0 <= k < |available| - 1 && available[1..][k] == r.value && r.value.id == id &&
                   forall j :: 0 <= j < k ==> available[1..][j].id != id;
          assert forall j :: 1 <= j < k + 1 ==> available[j].id != id by {
            forall j | 1 <= j < k + 1 ensures available[j].id != id {
              assert available[j] == available[1..][j - 1];
            }
          }
        }
      }
      r
  }

  /** `addExercise`: None when it returns early (no selection, the selection is
      not available, or it is already listed); otherwise the list with one new
      entry appended, which `onExercisesChange` receives. */
  function AddExercise(exercises: seq<CustomizableExercise>, available: seq<AvailableExercise>,
                       selected: string, sets: int, reps: int): Option<seq<CustomizableExercise>>
  {
    if selected == "" then None
    else match FindAvailable(available, selected)
      case None => None
      case Some(ex) =>
        if Listed(exercises, selected) then None
        else Some(exercises + [CustomizableExercise(None, selected, ex.name, sets, reps)])
  }

  /** The entries' exercise ids are pairwise distinct. */
  predicate UniqueExerciseIds(exercises: seq<CustomizableExercise>)
  {
    forall i, j :: 0 <= i < j < |exercises| ==> exercises[i].exerciseId != exercises[j].exerciseId
  }

  /** When an add goes through and when it is a no-op, and what it appends:
      exactly one entry at the end, carrying the selected id, the available
      exercise's name, the given sets and reps, and no page id. */
  lemma AddExerciseOutcome(exercises: seq<CustomizableExercise>, available: seq<AvailableExercise>,
                           selected: string, sets: int, reps: int)
    ensures AddExercise(exercises, available, selected, sets, reps).None? <==>
              selected == "" || FindAvailable(available, selected).None? || Listed(exercises, selected)
    ensures AddExercise(exercises, available, selected, sets, reps).Some? ==>
              var r := AddExercise(exercises, available, selected, sets, reps).value;
              && |r| == |exercises| + 1
              && r[..|exercises|] == exercises
              && r[|exercises|] == CustomizableExercise(None, selected, FindAvailable(available, selected).value.name, sets, reps)
              && (exists i :: 0 <= i < |available| && available[i].id == selected && available[i].name == r[|exercises|].exerciseName)
  {
  }

  /** Adding never introduces a duplicate exercise id. */
  lemma AddKeepsIdsUnique(exercises: seq<CustomizableExercise>, available: seq<AvailableExercise>,
                          selected: string, sets: int, reps: int)
    requires UniqueExerciseIds(exercises)
    ensures AddExercise(exercises, available, selected, sets, reps).Some? ==>
              UniqueExerciseIds(AddExercise(exercises, available, selected, sets, reps).value)
  {
    var r := AddExercise(exercises, available, selected, sets, reps);
    if r.Some? {
      var s := r.value;
      forall i, j | 0 <= i < j < |s| ensures s[i].exerciseId != s[j].exerciseId {
        if j == |exercises| {
          assert s[i] == exercises[i];
        } else {
          assert s[i] == exercises[i] && s[j] == exercises[j];
        }
      }
    }
  }

  /** After an add, the added exercise is no longer offered. */
  lemma AddedIsNoLongerOffered(exercises: seq<CustomizableExercise>, available: seq<AvailableExercise>,
                               selected: string, sets: int, reps: int)
    requires AddExercise(exercises, available, selected, sets, reps).Some?
    ensures forall i :: 0 <= i < |Filtered(available, AddExercise(exercises, available, selected, sets, reps).value)| ==>
              Filtered(available, AddExercise(exercises, available, selected, sets, reps).value)[i].id != selected
  {
    var s := AddExercise(exercises, available, selected, sets, reps).value;
    assert s[|s| - 1].exerciseId == selected;
    assert Listed(s, selected);
  }

  /** `parseInt(value) || 1`: the number typed into the sets or reps field, or
      1 when it does not parse (NaN) or parses to 0. */
  function CountInput(raw: string): int
  {
    var p := JsNumbers.ParseInt(raw);
    if p.None? || p.value == 0 then 1 else p.value
  }

  /** The parsed count is never 0. */
  lemma CountInputNonZero(raw: string)
    ensures CountInput(raw) != 0
  {
  }

  /** A typed positive number is taken as it is; a typed zero becomes 1. */
  lemma CountInputOfNumber(n: nat)
    ensures CountInput(JsNumbers.DecimalString(n)) == if n > 0 then n else 1
  {
    JsNumbers.ParseDecimal(n);
  }

  /** An empty field becomes 1. */
  lemma CountInputOfEmpty()
    ensures CountInput("") == 1
  {
    assert JsNumbers.TrimStart("") == "";
    assert JsNumbers.LeadingDigits("", 10) == 0;
  }

  /** The add form: whether it is open, the selection and the sets and reps
      fields. */
  class AddForm {
    var isAdding: bool
    var selectedExerciseId: string
    var newSets: int
    var newReps: int

    constructor ()
      ensures !isAdding && selectedExerciseId == "" && newSets == 3 && newReps == 10
    {
      isAdding, selectedExerciseId, newSets, newReps := false, "", 3, 10;
    }

    /** The "+ Add Exercise" button opens the form. */
    method Open()
      modifies this
      ensures isAdding
      ensures selectedExerciseId == old(selectedExerciseId) && newSets == old(newSets) && newReps == old(newReps)
    {
      isAdding := true;
    }

    /** The select box sets the selection. */
    method Select(id: string)
      modifies this
      ensures selectedExerciseId == id
      ensures isAdding == old(isAdding) && newSets == old(newSets) && newReps == old(newReps)
    {
      selectedExerciseId := id;
    }

    /** Typing in the sets field. */
    method SetSetsInput(raw: string)
      modifies this
      ensures newSets == CountInput(raw) && newSets != 0
      ensures isAdding == old(isAdding) && selectedExerciseId == old(selectedExerciseId) && newReps == old(newReps)
    {
      CountInputNonZero(raw);
      newSets := CountInput(raw);
    }

    /** Typing in the reps field. */
    method SetRepsInput(raw: string)
      modifies this
      ensures newReps == CountInput(raw) && newReps != 0
      ensures isAdding == old(isAdding) && selectedExerciseId == old(selectedExerciseId) && newSets == old(newSets)
    {
      CountInputNonZero(raw);
      newReps := CountInput(raw);
    }

    /** The Cancel button closes the form and clears the selection. */
    method Cancel()
      modifies this
      ensures !isAdding && selectedExerciseId == ""
      ensures newSets == old(newSets) && newReps == old(newReps)
    {
      isAdding, selectedExerciseId := false, "";
    }

    /** The Add button: the new list handed to `onExercisesChange`, if any; a
        successful add resets the form to closed, no selection, 3 sets and 10
        reps, and a no-op leaves it as it was. */
    method Add(exercises: seq<CustomizableExercise>, available: seq<AvailableExercise>)
      returns (changed: Option<seq<CustomizableExercise>>)
      modifies this
      ensures changed == AddExercise(exercises, available, old(selectedExerciseId), old(newSets), old(newReps))
      ensures changed.Some? ==> !isAdding && selectedExerciseId == "" && newSets == 3 && newReps == 10
      ensures changed.None? ==>
                isAdding == old(isAdding) && selectedExerciseId == old(selectedExerciseId)
                && newSets == old(newSets) && newReps == old(newReps)
    {
      changed := AddExercise(exercises, available, selectedExerciseId, newSets, newReps);
      if changed.Some? {
        isAdding, selectedExerciseId, newSets, newReps := false, "", 3, 10;
      }
    }
  }
}
