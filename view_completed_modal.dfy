/** The completed-workout view: the day's entries, their names split back out
    of the composite titles, and each exercise's personal best. */
module ViewCompletedModal {
  import opened Wrappers
  import opened CompositeName
  import WorkoutsRoute

  /** The fields the view reads from one element of the weekly-log response;
      a field the element does not have is None. */
  datatype Workout = Workout(
    id: string,
    name: string,
    exerciseId: Option<string>,
    sets: Option<int>,
    reps: Option<int>,
    maxWeight: Option<int>,
    completed: Option<bool>)

  /** What GET /api/workouts actually sends: a row has `exerciseIds` but no
      `exerciseId` and no `completed`. */
  function FromRow(r: WorkoutsRoute.WorkoutRow): Workout
  {
    Workout(r.id, r.name, None, Some(r.sets), Some(r.reps), Some(r.maxWeight), None)
  }

  datatype ExerciseData = ExerciseData(
    pageId: string,
    exerciseId: Option<string>,
    exerciseName: string,
    defaultSets: int,
    defaultReps: int,
    actualSets: int,
    actualReps: int,
    maxWeight: int,
    completed: bool,
    personalBest: int)

  /** The property key `bests[workout.exerciseId]` looks up: an absent id is
      the key "undefined". */
  function BestsKey(exerciseId: Option<string>): string
  {
    if exerciseId.Some? then exerciseId.value else "undefined"
  }

  /** `bests[workout.exerciseId] || 0`. */
  function PersonalBest(bests: map<string, int>, exerciseId: Option<string>): int
  {
    var key := BestsKey(exerciseId);
    if key in bests then bests[key] else 0
  }

  function ToExerciseData(w: Workout, bests: map<string, int>): ExerciseData
  {
    ExerciseData(w.id, w.exerciseId, ExerciseNameOf(w.name),
                 w.sets.GetOr(0), w.reps.GetOr(0), w.sets.GetOr(0), w.reps.GetOr(0),
                 w.maxWeight.GetOr(0), w.completed.GetOr(false), PersonalBest(bests, w.exerciseId))
  }

  datatype View = View(workoutName: string, exercises: seq<ExerciseData>)

  /** `loadWorkoutData`: an empty response leaves the view as it was;
      otherwise the workout name comes from the first entry and there is one
      row per entry, in response order. */
  function LoadWorkoutData(prev: View, workouts: seq<Workout>, bests: map<string, int>): (v: View)
    ensures |workouts| == 0 ==> v == prev
    ensures |workouts| > 0 ==> |v.exercises| == |workouts|
    ensures forall i :: 0 <= i < |workouts| ==> v.exercises[i].pageId == workouts[i].id
    ensures |workouts| > 0 ==>
              && v.workoutName == WorkoutNameOf(workouts[0].name)
              && forall i :: 0 <= i < |workouts| ==> v.exercises[i] == ToExerciseData(workouts[i], bests)
  {
    if |workouts| == 0 then prev
    else View(WorkoutNameOf(workouts[0].name),
              seq(|workouts|, i requires 0 <= i < |workouts| => ToExerciseData(workouts[i], bests)))
  }

  /** The "Personal Best" line shows for a positive best. */
  predicate ShowsPersonalBest(e: ExerciseData)
  {
    e.personalBest > 0
  }

  /** The "New Record" badge shows inside that line when the day's max weight
      equals the best. */
  predicate ShowsNewRecord(e: ExerciseData)
  {
    ShowsPersonalBest(e) && e.maxWeight == e.personalBest
  }

  /** The badge shows exactly when the workout's max weight equals its
      positive personal best, so a day logged at weight 0 (or without one)
      never shows it. */
  lemma NewRecordOfWorkout(w: Workout, bests: map<string, int>)
    ensures ShowsNewRecord(ToExerciseData(w, bests)) <==>
              PersonalBest(bests, w.exerciseId) > 0 && w.maxWeight.GetOr(0) == PersonalBest(bests, w.exerciseId)
    ensures w.maxWeight.GetOr(0) <= 0 ==> !ShowsNewRecord(ToExerciseData(w, bests))
  {
  }

  /** Field mapping: numbers default to 0, completed to false, the actual
      sets and reps are the stored ones, and the exercise name is the part
      after the first separator (the whole name when there is none). */
  lemma ExerciseDataFields(w: Workout, bests: map<string, int>)
    ensures var e := ToExerciseData(w, bests);
              && e.actualSets == e.defaultSets && e.actualReps == e.defaultReps
              && (w.sets.None? ==> e.defaultSets == 0)
              && (w.reps.None? ==> e.defaultReps == 0)
              && (w.maxWeight.None? ==> e.maxWeight == 0)
              && (w.completed.None? ==> !e.completed)
              && (w.sets.Some? ==> e.defaultSets == w.sets.value)
              && (w.reps.Some? ==> e.defaultReps == w.reps.value)
              && (w.maxWeight.Some? ==> e.maxWeight == w.maxWeight.value)
              && (w.completed.Some? ==> e.completed == w.completed.value)
              && e.exerciseName == ExerciseNameOf(w.name)
              && (!HasSeparator(w.name) ==> e.exerciseName == w.name)
              && e.personalBest == (if BestsKey(w.exerciseId) in bests then bests[BestsKey(w.exerciseId)] else 0)
              && (w.exerciseId.Some? && w.exerciseId.value !in bests ==> e.personalBest == 0)
  {
    ExerciseNameMeaning(w.name);
  }

  /** Read back from entries titled `t + " - " + e_i`, the view shows the
      template name (or "Workout") and each exercise name exactly. */
  lemma ViewOfComposedEntries(prev: View, workouts: seq<Workout>, bests: map<string, int>, t: string, names: seq<string>)
    requires |workouts| > 0 && |names| == |workouts|
    requires SafeTemplateName(t)
    requires forall i :: 0 <= i < |workouts| ==> names[i] != "" && workouts[i].name == Compose(t, names[i])
    ensures LoadWorkoutData(prev, workouts, bests).workoutName == if t != "" then t else "Workout"
    ensures forall i :: 0 <= i < |workouts| ==> LoadWorkoutData(prev, workouts, bests).exercises[i].exerciseName == names[i]
  {
    ParseCompose(t, names[0]);
    forall i | 0 <= i < |workouts|
      ensures LoadWorkoutData(prev, workouts, bests).exercises[i].exerciseName == names[i]
    {
      ParseCompose(t, names[i]);
    }
  }

  /** The rows the weekly-log route serves carry no `exerciseId`, so every
      one of them looks up the key "undefined": unless the bests have that
      key, no personal best and no new record is ever shown for them, and
      none of them shows as completed. */
  lemma ServedRowsShowNoBest(r: WorkoutsRoute.WorkoutRow, bests: map<string, int>)
    ensures ToExerciseData(FromRow(r), bests).personalBest ==
              if "undefined" in bests then bests["undefined"] else 0
    ensures "undefined" !in bests ==>
              !ShowsPersonalBest(ToExerciseData(FromRow(r), bests)) && !ShowsNewRecord(ToExerciseData(FromRow(r), bests))
    ensures !ToExerciseData(FromRow(r), bests).completed
  {
  }
}
