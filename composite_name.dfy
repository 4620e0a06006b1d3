/** The naming convention for weekly workout entries: an entry's title is
    `"{templateName} - {exerciseName}"`, and readers recover the two halves by
    splitting on the literal separator `" - "`. */
module CompositeName {
  import opened Wrappers
  import opened JsStrings

  const Separator: string := " - "

  /** The title written by both workout-creating routes. */
  function Compose(templateName: string, exerciseName: string): string
  {
    templateName + Separator + exerciseName
  }

  /** `parts.slice(1).join(" - ") || name`: everything after the first
      separator, or the whole name when that is empty. */
  function ExerciseNameOf(name: string): string
  {
    var rest := Join(Split(name, Separator)[1..], Separator);
    if rest != "" then rest else name
  }

  /** `name.split(" - ")[0] || "Workout"`: the text before the first separator,
      or "Workout" when that is empty. */
  function WorkoutNameOf(name: string): string
  {
    var first := Split(name, Separator)[0];
    if first != "" then first else "Workout"
  }

  predicate HasSeparator(s: string)
  {
    IndexOf(s, Separator).Some?
  }

  /** What the exercise-name parse means: the text after the first separator
      when there is a separator followed by something, else the whole name. */
  lemma ExerciseNameMeaning(name: string)
    ensures !HasSeparator(name) ==> ExerciseNameOf(name) == name
    ensures HasSeparator(name) ==>
              var i := IndexOf(name, Separator).value;
              ExerciseNameOf(name) == if i + 3 < |name| then name[i + 3..] else name
  {
    SplitHeadTail(name, Separator);
  }

  /** What the workout-name parse means: the text before the first separator,
      else "Workout" when that text is empty. */
  lemma WorkoutNameMeaning(name: string)
    ensures !HasSeparator(name) ==> WorkoutNameOf(name) == if name != "" then name else "Workout"
    ensures HasSeparator(name) ==>
              var i := IndexOf(name, Separator).value;
              WorkoutNameOf(name) == if i > 0 then name[..i] else "Workout"
  {
    SplitHeadTail(name, Separator);
  }

  /** A template name the convention can carry: it holds no separator and does
      not end in " -", so that the first separator of a composed title is the
      one `Compose` inserted. */
  predicate SafeTemplateName(t: string)
  {
    !HasSeparator(t) && !(|t| >= 2 && t[|t| - 2] == ' ' && t[|t| - 1] == '-')
  }

  /** The first separator in a composed title is the inserted one. */
  lemma {:induction false} ComposeSeparatorIndex(t: string, e: string)
    requires SafeTemplateName(t)
    ensures IndexOf(Compose(t, e), Separator) == Some(|t|)
  {
    var s := Compose(t, e);
    assert s[|t|] == ' ' && s[|t| + 1] == '-' && s[|t| + 2] == ' ';
    assert OccursAt(s, Separator, |t|);
    forall j | 0 <= j < |t| ensures !OccursAt(s, Separator, j) {
      if j + 3 <= |t| {
        assert !OccursAt(t, Separator, j);
        assert s[j] == t[j] && s[j + 1] == t[j + 1] && s[j + 2] == t[j + 2];
      } else if j == |t| - 1 {
        assert s[j + 2] == '-';
      } else {
        assert s[j] == t[|t| - 2] && s[j + 1] == t[|t| - 1];
      }
    }
  }

  /** The round trip of the convention: parsing a composed title gives back the
      exercise name exactly (even one that itself contains " - "), and the
      workout name is the template name ("Workout" for an empty one). */
  lemma ParseCompose(t: string, e: string)
    requires SafeTemplateName(t)
    requires e != ""
    ensures ExerciseNameOf(Compose(t, e)) == e
    ensures WorkoutNameOf(Compose(t, e)) == if t != "" then t else "Workout"
  {
    ComposeSeparatorIndex(t, e);
    SplitHeadTail(Compose(t, e), Separator);
    assert Compose(t, e)[|t| + 3..] == e;
    assert Compose(t, e)[..|t|] == t;
  }

  /** With an empty exercise name the parse falls back to the whole title. */
  lemma ParseComposeEmptyExercise(t: string)
    requires SafeTemplateName(t)
    ensures ExerciseNameOf(Compose(t, "")) == Compose(t, "")
  {
    ComposeSeparatorIndex(t, "");
    SplitHeadTail(Compose(t, ""), Separator);
  }

  /** Each window of `u + " -"` is a window of `u + " - "` that lies before the
      inserted separator, so none of them is a separator. */
  lemma {:induction false} NoSeparatorBeforeTrailingDash(u: string, j: nat)
    requires SafeTemplateName(u)
    ensures !OccursAt(u + " -", Separator, j)
  {
    if j + 3 <= |u| + 2 {
      ComposeSeparatorIndex(u, "");
      var longer := Compose(u, "");
      var short := u + " -";
      assert short == longer[..|u| + 2];
      assert short[j..j + 3] == longer[j..j + 3];
      assert !OccursAt(longer, Separator, j);
    }
  }

  /** No separator in the template name is not enough on its own: after a
      template name ending in " -" (such as "Legs -") the parse finds a
      separator one character early and returns "- " before the exercise name. */
  lemma TrailingDashBreaksRoundTrip(u: string, e: string)
    requires SafeTemplateName(u)
    ensures !HasSeparator(u + " -")
    ensures ExerciseNameOf(Compose(u + " -", e)) == "- " + e != e
  {
    var r := IndexOf(u + " -", Separator);
    if r.Some? {
      NoSeparatorBeforeTrailingDash(u, r.value);
    }
    assert Compose(u + " -", e) == Compose(u, "- " + e);
    ParseCompose(u, "- " + e);
    assert |"- " + e| != |e|;
  }
}
