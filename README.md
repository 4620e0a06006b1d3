# Workout tracker on Notion: a Dafny model of its core

The system is a Next.js workout tracker that keeps its data in Notion
databases. There is a weekly-workouts database with one page per exercise
performed on a date. There is a daily-workouts database with one page per
day. Read-only databases hold the workout templates, their template
exercises, the exercises and the body groups. The API routes query and
update these pages. The React modals turn the route responses into edit and
view state. `lib/templates-storage.ts` keeps an in-memory list of templates.

This project models that core in Dafny:

- **Store** (`store.dfy`) stands in for the Notion workspace. Each database
  becomes a sequence of typed page records (title, relations, numbers,
  date, `archived`). The class `Workspace` holds them. The weekly and daily
  collections are `var` fields that the routes reassign. The other
  collections are `const`. `Valid()` says page ids are distinct within the weekly
  and within the daily collection; the other collections carry no such
  guarantee. When several of their pages share an id, `FindById`
  takes the first, and its contract promises only a stored page with that id. A query returns every live page that matches, in store order.
  `pages.retrieve` becomes `FindById`. `pages.update` becomes
  `UpdateWeekly` / `UpdateDaily`. `pages.create` appends a page whose id
  `FreshId` picks.
- **Helpers.** `JsStrings` models JavaScript `split`/`join`/`indexOf`.
  `JsNumbers` models `parseInt` and decimal `toString`. `CompositeName`
  models the "`<template> - <exercise>`" title convention. `Sorting` is a
  stable insertion sort that models Notion's `sorts` by a number property.
  `Seqs` and `Wrappers` hold generic sequence lemmas and `Option`. `Http`
  models request fields (missing, or a string whose truthiness matters),
  JSON values and route responses: `Ok`, or `Error` with a status and a
  message.
- **One module per route or component.** Each route is a method over a
  `Workspace`. It states the response for every branch the store can
  reach, including the 400 and 404 paths and the 500s a failed lookup in
  the store raises, with their exact messages, and the new contents of the
  store. Pure parts of the routes and components are functions, with
  lemmas that state their properties. The two components that hold state
  (`ExerciseCustomizer`'s add form and `WorkoutEditModal`) are classes
  whose methods update their fields. `TemplatesStorage.TemplateRepository`
  models the module-level mutable template array.

Properties proved include the following:

- the composite title round trip (compose, then parse the name back);
- GET lists every created entry, and a created entry reads back with its
  exercise name, sets, reps and relation;
- the template-exercise grouping partitions the kept records;
- the stable sort is sorted, a permutation and stable;
- deleting archives exactly the matches, is idempotent and removes exactly
  the matched live pages;
- moving takes every entry off the source date and only the first daily page;
- the edit modal's "deleted" lists are exactly the ids that disappeared;
- adding an exercise keeps exercise ids unique.

## Model

Definitions whose only possible contract is their own shape (the id
projections such as `Store.WeeklyIds`, `Store.UpdateWeekly`, and the
pointwise maps such as `WorkoutsRoute.Instantiated` or
`WorkoutsRoute.DecodeAll`) have no row; the lemmas about them do.

| member | source | states |
|---|---|---|
| Store.FindById | app/api/workouts/route.ts:25 | `pages.retrieve`: None exactly when no page has the id; otherwise a page of the store with that id |
| Store.FreshId | app/api/workouts/route.ts:62-90 | the id Notion gives a created page differs from every existing id |
| Store.UpdateWeeklyKeepsIds | app/api/workouts/delete/route.ts:58-65 | an id-preserving update keeps the store's id sequence |
| Store.UpdateDailyKeepsIds | app/api/workouts/move/route.ts:63-74 | same, for the daily database |
| Store.AddWeeklyKeepsDistinct | app/api/workouts/route.ts:62-90 | creating a page with a fresh id keeps the ids distinct |
| Store.UpdateWeeklyAt | app/api/workouts/delete/route.ts:16-26 | with distinct ids, updating one page's id changes that index only |
| Store.UpdateDailyAt | app/api/daily-workouts/update/route.ts:40-51 | same, for the daily page found first |
| Store.MatchingIds | app/api/workouts/delete/route.ts:37-55 | a query returns as many ids as there are matching pages, each the id of a matching page |
| Store.MatchingId | app/api/workouts/delete/route.ts:37-55 | with distinct ids, a page's id is in the query result iff the page matches |
| Store.MatchingIdsExactly | app/api/workouts/move/route.ts:26-34 | the query result contains exactly the ids of matching pages |
| Store.UpdateEachWeekly | app/api/workouts/move/route.ts:39-48 | the update loop over query results patches exactly the pages whose ids were returned; ids and daily pages unchanged |
| Store.Workspace.constructor | lib/notion.ts:1-12 | a workspace holds the given collections and starts valid |
| JsStrings.IndexFrom | app/components/WorkoutEditModal.tsx:75 | the first occurrence of the separator at or after k, or None when there is none |
| JsStrings.Split | app/components/WorkoutEditModal.tsx:75 | `split` always gives at least one part |
| JsStrings.JoinSplit | app/components/WorkoutEditModal.tsx:75-76 | joining the parts of a split with the same separator gives back the string |
| JsStrings.SplitHeadTail | app/components/WorkoutEditModal.tsx:75-76 | no separator: one part; otherwise the first part is the prefix before the first separator and the rest joins back to the suffix after it |
| CompositeName.Compose | app/api/workouts/route.ts:69 | definition of the title `${templateName} - ${exerciseName}`; CompositeName.ParseCompose proves both halves parse back |
| CompositeName.ExerciseNameOf | app/components/WorkoutEditModal.tsx:75-76 | definition of `parts.slice(1).join(" - ") or name`; CompositeName.ExerciseNameMeaning states what it yields |
| CompositeName.WorkoutNameOf | app/components/ViewCompletedWorkoutModal.tsx:51-52 | definition of `split(" - ")[0] or "Workout"`; CompositeName.WorkoutNameMeaning states what it yields |
| JsNumbers.DigitChar | lib/templates-storage.ts:281 | a digit below ten prints as '0'..'9' |
| JsNumbers.DecimalString | lib/templates-storage.ts:281 | `toString` of a natural is a nonempty string of decimal digits |
| JsNumbers.LeadingDigits | app/components/ExerciseCustomizer.tsx:144 | the length of the longest prefix of digits |
| JsNumbers.TrimStart | app/components/ExerciseCustomizer.tsx:144 | `parseInt` skips leading whitespace: a suffix not starting with whitespace |
| JsNumbers.DecimalStringValue | lib/templates-storage.ts:281 | the digits of `toString(n)` denote n |
| JsNumbers.ParseInt | app/components/ExerciseCustomizer.tsx:144 | definition of `parseInt` without a radix: white space skipped, an optional sign, a 0x prefix for base 16, the longest digit run, None for NaN; JsNumbers.ParseDigits and JsNumbers.ParseDecimal state what it reads |
| JsNumbers.DecimalDigitsAreDigits | app/components/ExerciseCustomizer.tsx:144 | a decimal string consists only of leading digits |
| JsNumbers.ParseUnsignedDecimal | app/components/ExerciseCustomizer.tsx:144 | after the sign a run of decimal digits is read whole, in base 10 |
| JsNumbers.ParseIntOfUnsigned | app/components/ExerciseCustomizer.tsx:144 | a string starting with a digit is read unsigned, and the same string after a '-' gives the negated value |
| JsNumbers.ParseDigits | app/components/ExerciseCustomizer.tsx:144 | `parseInt` of a digit string, optionally with a minus sign, is its value |
| JsNumbers.ParseDecimal | app/components/ExerciseCustomizer.tsx:144-156 | `parseInt(String(n))` is n, and `parseInt("-" + String(n))` is -n |
| CompositeName.ExerciseNameMeaning | app/components/WorkoutEditModal.tsx:75-76 | the exercise name is the whole title when it has no " - ", otherwise everything after the first " - " (the whole title if that is empty) |
| CompositeName.WorkoutNameMeaning | app/components/ViewCompletedWorkoutModal.tsx:51-52 | the workout name is the part before the first " - ", or "Workout" when that is empty |
| CompositeName.ComposeSeparatorIndex | app/api/workouts/route.ts:69 | in a composed title the first " - " sits right after the template name, for a safe template name |
| CompositeName.ParseCompose | app/api/workouts/create/route.ts:62 | parsing a composed title gives back the exercise name and the template name (or "Workout") |
| CompositeName.ParseComposeEmptyExercise | app/components/WorkoutEditModal.tsx:76 | with an empty exercise name the fallback to the title returns the whole title |
| CompositeName.NoSeparatorBeforeTrailingDash | app/components/WorkoutEditModal.tsx:75 | a safe name followed by " -" has no " - " in it |
| CompositeName.TrailingDashBreaksRoundTrip | app/components/WorkoutEditModal.tsx:75-76 | a template name ending in " -" makes the parsed exercise name "- " + name, so the round trip fails |
| Sorting.InsertPermutation | app/api/templates/route.ts:42-50 | inserting into a sorted list adds exactly one element |
| Sorting.InsertSorted | app/api/templates/route.ts:42-50 | inserting keeps the list sorted by the key |
| Sorting.SortBySorted | app/api/templates/route.ts:42-50 | the sort orders by key, non-decreasing |
| Sorting.SortByPermutation | app/api/templates/route.ts:42-50 | the sort is a permutation of its input |
| Sorting.SortBySortedAndPermutation | app/api/templates/route.ts:42-50 | the sort by Order is sorted, a permutation of its input and of the same length |
| Sorting.SortByMember | app/api/templates/route.ts:42-50 | an element is in the sorted list iff it is in the input |
| Sorting.InsertStable | app/api/templates/route.ts:42-50 | insertion keeps the relative order of elements with equal keys |
| Sorting.SortByStable | app/api/templates/route.ts:104 | the sort is stable: elements with equal keys keep their input order |
| Sorting.SortBySortedIsIdentity | app/api/templates/route.ts:104 | sorting an already sorted list changes nothing |
| Sorting.ConsSorted | app/api/templates/route.ts:104 | a sorted list stays sorted with an element no greater than all of it in front |
| Sorting.FilterKeepsSorted | app/api/templates/route.ts:69-91 | a sub-sequence of a sorted list is sorted |
| Seqs.FirstIndex | app/api/daily-workouts/update/route.ts:40 | `results[0]`: None iff nothing matches, otherwise the index of the first match |
| Seqs.FilterFirst | app/api/workouts/create/route.ts:49-52 | the first element of a filtered list is the first element that passes |
| Seqs.FilterMember | app/api/workouts/route.ts:57-60 | an element survives a filter iff it occurs and passes |
| TemplatesStorage.SeedTemplates | lib/templates-storage.ts:5-266 | the eleven seeded templates have ids "1".."11", all distinct |
| TemplatesStorage.Merge | lib/templates-storage.ts:293 | definition of the spread `{ ...t, ...patch }`; TemplatesStorage.MergeProperties states its laws |
| TemplatesStorage.RemoveAt | lib/templates-storage.ts:300 | definition of `splice(i, 1)`; TemplatesStorage.RemoveAtProperties states what it removes and keeps |
| TemplatesStorage.FindIndex | lib/templates-storage.ts:291 | `findIndex`: the first index with the id, or None iff no template has it |
| TemplatesStorage.Find | lib/templates-storage.ts:272-274 | `find`: the first template with the id, or None iff there is none |
| TemplatesStorage.MergeProperties | lib/templates-storage.ts:293-294 | the spread merge: an empty patch is the identity, merging twice equals merging once, and for each of id, name, bodyGroups and exercises a given field wins and an absent one keeps its value |
| TemplatesStorage.RemoveAtProperties | lib/templates-storage.ts:297-302 | `splice(i, 1)` removes exactly element i and keeps the others in order |
| TemplatesStorage.FindAfterAppend | lib/templates-storage.ts:276-285 | after `push`, looking up the new id finds the new template unless an older one already had that id |
| TemplatesStorage.FindIndexPrefix | lib/templates-storage.ts:291 | `findIndex` on a concatenation looks in the first part first |
| TemplatesStorage.DeleteRemovesId | lib/templates-storage.ts:297-302 | with distinct ids, a deleted id can no longer be found |
| TemplatesStorage.TemplateRepository.constructor | lib/templates-storage.ts:5-266 | the store starts with the seed templates |
| TemplatesStorage.TemplateRepository.GetTemplates | lib/templates-storage.ts:268-270 | returns the current array |
| TemplatesStorage.TemplateRepository.GetTemplateById | lib/templates-storage.ts:272-274 | returns the first template with the id, or None |
| TemplatesStorage.TemplateRepository.CreateTemplate | lib/templates-storage.ts:276-285 | the new template has id `String(now)` and the given fields, is appended at the end, and nothing else changes |
| TemplatesStorage.TemplateRepository.UpdateTemplate | lib/templates-storage.ts:287-295 | unknown id: None and nothing changes; otherwise the first match is replaced by the merge and returned |
| TemplatesStorage.TemplateRepository.DeleteTemplate | lib/templates-storage.ts:297-302 | true iff the id was present, and then exactly the first match is removed |
| ExerciseCustomizer.Filtered | app/components/ExerciseCustomizer.tsx:39 | the offered exercises are exactly the available ones not already in the list |
| ExerciseCustomizer.RemoveExercise | app/components/ExerciseCustomizer.tsx:41-47 | keeps exactly the rows whose pageId, or else exerciseId, differs from the identifier |
| ExerciseCustomizer.FindAvailable | app/components/ExerciseCustomizer.tsx:52 | the first available exercise with the id, or None iff there is none |
| ExerciseCustomizer.AddExercise | app/components/ExerciseCustomizer.tsx:49-72 | definition of `addExercise` with its three early returns; ExerciseCustomizer.AddExerciseOutcome states each outcome |
| ExerciseCustomizer.CountInput | app/components/ExerciseCustomizer.tsx:144 | definition of `parseInt(value) or 1`; the CountInput lemmas below state its values |
| ExerciseCustomizer.AddExerciseOutcome | app/components/ExerciseCustomizer.tsx:49-72 | adding does nothing iff no exercise is selected, it is unknown or already listed; otherwise the list gains exactly the new row |
| ExerciseCustomizer.AddKeepsIdsUnique | app/components/ExerciseCustomizer.tsx:55-58 | adding keeps exercise ids unique |
| ExerciseCustomizer.AddedIsNoLongerOffered | app/components/ExerciseCustomizer.tsx:39 | after adding, the exercise is no longer in the offered list |
| ExerciseCustomizer.CountInputNonZero | app/components/ExerciseCustomizer.tsx:144 | a sets or reps input read as `parseInt`, with 1 for NaN or 0, is never 0 |
| ExerciseCustomizer.CountInputOfNumber | app/components/ExerciseCustomizer.tsx:156 | a typed positive number is taken as is, and "0" becomes 1 |
| ExerciseCustomizer.CountInputOfEmpty | app/components/ExerciseCustomizer.tsx:144 | an emptied input becomes 1 |
| ExerciseCustomizer.AddForm.constructor | app/components/ExerciseCustomizer.tsx:34-37 | the form starts closed, with nothing selected, 3 sets and 10 reps |
| ExerciseCustomizer.AddForm.Open | app/components/ExerciseCustomizer.tsx:107 | opens the form and changes nothing else |
| ExerciseCustomizer.AddForm.Select | app/components/ExerciseCustomizer.tsx:122 | sets the selection and changes nothing else |
| ExerciseCustomizer.AddForm.SetSetsInput | app/components/ExerciseCustomizer.tsx:144 | the sets become the parsed input (never 0) |
| ExerciseCustomizer.AddForm.SetRepsInput | app/components/ExerciseCustomizer.tsx:156 | the reps become the parsed input (never 0) |
| ExerciseCustomizer.AddForm.Cancel | app/components/ExerciseCustomizer.tsx:172-173 | closes the form and clears the selection, keeping the counts |
| ExerciseCustomizer.AddForm.Add | app/components/ExerciseCustomizer.tsx:49-72 | reports the new list or nothing, as AddExercise says; on success the form resets to closed, unselected, 3 and 10; on a guard it is untouched |
| TemplatesRoute.ExerciseNamesKeys | app/api/templates/route.ts:58-64 | the exercise map has exactly the exercise ids as keys |
| TemplatesRoute.ExerciseNamesLastWins | app/api/templates/route.ts:58-64 | for a repeated id the map holds the title of the last page with that id |
| TemplatesRoute.UnknownExerciseHasEmptyName | app/api/templates/route.ts:85 | an exercise id unknown to the map gets the name "" |
| TemplatesRoute.ExerciseNames | app/api/templates/route.ts:58-64 | definition of the id-to-name map; ExerciseNamesKeys and ExerciseNamesLastWins state its keys and values |
| TemplatesRoute.EntriesAppend | app/api/templates/route.ts:83-89 | the entries of two record lists are the entries of each, concatenated |
| TemplatesRoute.GroupSnoc | app/api/templates/route.ts:69-91 | one more record extends exactly its template's group |
| TemplatesRoute.GroupStep | app/api/templates/route.ts:69-91 | one more loop step keeps the map equal to the groups of the records seen so far, with no empty group and no key for a template without records |
| TemplatesRoute.GroupsOfKeys | app/api/templates/route.ts:69-91 | once the map holds the groups, its keys are exactly the templates some seen record with both relations points at |
| TemplatesRoute.AddRecord | app/api/templates/route.ts:72-89 | one loop step: a record with both relations is pushed onto its template's list, created empty when missing; any other record is skipped |
| TemplatesRoute.GroupByTemplate | app/api/templates/route.ts:69-91 | a template id is a key iff some record with both relations points at it, and its list is the entries of those records in query order |
| TemplatesRoute.GetTemplates | app/api/templates/route.ts:31-127 | one result per template, in store order, with its id, first title, body-group ids, estimated time defaulting to 0 and its exercises sorted by order |
| TemplatesRoute.TemplateExercisesSorted | app/api/templates/route.ts:104 | a template's exercise list is sorted by order, a permutation of its group, and stable |
| TemplatesRoute.KeptRecordIsGrouped | app/api/templates/route.ts:78-89 | every record with a template and an exercise appears in its template's group |
| TemplatesRoute.HitsAtMostOne | app/api/templates/route.ts:72-78 | a record falls into at most one group among distinct keys |
| TemplatesRoute.GroupedCountCons | app/api/templates/route.ts:69-91 | the grouped count grows by one exactly for a record kept under one of the keys |
| TemplatesRoute.GroupsPartitionKept | app/api/templates/route.ts:69-91 | over distinct keys covering all templates, the groups hold every kept record exactly once |
| TemplatesRoute.GroupedCountEmpty | app/api/templates/route.ts:69-91 | no keys, no grouped records |
| TemplatesRoute.AssembleTemplate | app/api/templates/route.ts:93-126 | definition of one response element, with [] for a template without a group; TemplatesRoute.GetTemplates states the response |
| WorkoutsRoute.TemplateName | app/api/workouts/route.ts:27-29 | the template's first title, or "Workout", and never empty |
| WorkoutsRoute.EntryPage | app/api/workouts/route.ts:62-90 | definition of the page `notion.pages.create` is asked for; WorkoutsRoute.CreatedEntryReadsBack states what GET reads back from it |
| WorkoutsRoute.AppendedSnoc | app/api/workouts/route.ts:51-99 | after one more created entry the store is still the old pages followed by one page per kept record, and every summary matches its record |
| WorkoutsRoute.AppendEntry | app/api/workouts/route.ts:62-98 | `notion.pages.create` appends exactly the composed page under an id not yet used, leaves the daily log alone, and the summary carries that id, the exercise name, the defaults and max weight 0 |
| WorkoutsRoute.AppendEntries | app/api/workouts/route.ts:51-99 | the loop skips records without an exercise, creates a page for each other one with an id unused so far, and keeps the ids distinct |
| WorkoutsRoute.PostWorkouts | app/api/workouts/route.ts:4-113 | 400 on a missing template id or date; 500 for an unknown template; otherwise as many pages as kept records, appended in Order, with the summaries and the message "Created n workout entries for name" |
| WorkoutsRoute.InstantiatedInOrder | app/api/workouts/route.ts:42-50 | the created pages follow the records' Order ascending |
| WorkoutsRoute.InstantiatedRecords | app/api/workouts/route.ts:57-60 | exactly the records with an exercise give pages, one each |
| WorkoutsRoute.FilterFor | app/api/workouts/route.ts:131-146 | a date range applies iff both startDate and endDate are given |
| WorkoutsRoute.DecodeRow | app/api/workouts/route.ts:160-170 | definition of one GET row, with the empty and 0 defaults; WorkoutsRoute.CreatedEntryReadsBack and WorkoutsRoute.ListedPageIsDecoded state its use |
| WorkoutsRoute.ListedPageIsDecoded | app/api/workouts/route.ts:148-170 | a page the query matches is decoded into one of the rows |
| WorkoutsRoute.GetWorkouts | app/api/workouts/route.ts:115-180 | one row per live page in range, and every live page in range has a row |
| WorkoutsRoute.GetWithoutRangeListsAllLive | app/api/workouts/route.ts:131-146 | without both bounds GET lists one row per unarchived page, so every page of a store with no archived page |
| WorkoutsRoute.CreatedEntryReadsBack | app/api/workouts/route.ts:160-170 | a created page read back through GET gives the composed name, date, default numbers, max weight 0 and the exercise relation; its name parses back |
| WorkoutsRoute.CreatedEntryIsListed | app/api/workouts/route.ts:115-180 | a created entry is listed by GET on its date |
| WorkoutsCreate.NewEntryOutcome | app/api/workouts/create/route.ts:9-97 | 400 iff a required field is missing; 500 iff the template is unknown; otherwise the page has the composed title, the date, the Exercises and Workout Template relations, the Template Exercise relation of the first matching record and the given numbers |
| WorkoutsCreate.TemplateExerciseRelationIsFirstMatch | app/api/workouts/create/route.ts:29-52 | the optional relation is absent when nothing matches, and otherwise points at the first match |
| WorkoutsCreate.NewEntryReadsBack | app/api/workouts/create/route.ts:55-91 | when the requested template's name is safe, the created entry reads back through GET with its exercise name, sets, reps and relation |
| WorkoutsCreate.CreateWorkout | app/api/workouts/create/route.ts:6-104 | errors exactly as NewEntry says, with the store unchanged; on success exactly one page is appended and the message names it |
| WorkoutsCreate.NewEntry | app/api/workouts/create/route.ts:9-91 | definition of the page to create or the error; WorkoutsCreate.NewEntryOutcome and WorkoutsCreate.NewEntryReadsBack state each case |
| WorkoutsCreate.TemplateExerciseRelation | app/api/workouts/create/route.ts:29-52 | definition of the optional Template Exercise relation; WorkoutsCreate.TemplateExerciseRelationIsFirstMatch states which record it names |
| WorkoutsDelete.DeleteWorkout | app/api/workouts/delete/route.ts:8-77 | a known pageId archives that page only; an unknown one gives 500; without a pageId, a missing date or exercise gives 400; otherwise every match is archived |
| WorkoutsDelete.NoMatchLeft | app/api/workouts/delete/route.ts:58-65 | after deleting, no page matches |
| WorkoutsDelete.DeleteIsIdempotent | app/api/workouts/delete/route.ts:37-65 | deleting twice equals deleting once |
| WorkoutsDelete.DeleteCount | app/api/workouts/delete/route.ts:37-65 | the live pages drop by exactly the number of matches |
| WorkoutsMove.MoveWeekly | app/api/workouts/move/route.ts:26-48 | every live entry on fromDate gets toDate; the others are unchanged |
| WorkoutsMove.MoveDaily | app/api/workouts/move/route.ts:51-74 | only the first daily page on fromDate is re-dated |
| WorkoutsMove.MoveWorkouts | app/api/workouts/move/route.ts:8-82 | 400 without both dates; otherwise both databases are re-dated as above, and the response reports the count and the message |
| WorkoutsMove.MoveChangesOnlyDates | app/api/workouts/move/route.ts:39-48 | moving changes only the date of a page |
| WorkoutsMove.MoveIsAdditive | app/api/workouts/move/route.ts:39-48 | moved entries land on toDate, entries already there stay, none remain on fromDate |
| WorkoutsMove.MoveCount | app/api/workouts/move/route.ts:39-48 | toDate ends with its own entries plus the moved ones; fromDate ends with none |
| WorkoutsMove.MoveDailyFirstOnly | app/api/workouts/move/route.ts:63-74 | the first daily page on fromDate is re-dated and every other page is untouched |
| WorkoutsMove.MoveDailyWithoutRecord | app/api/workouts/move/route.ts:63 | with no daily page on fromDate nothing changes |
| DailyUpdate.UpdateCompleted | app/api/daily-workouts/update/route.ts:6-63 | 400 without a date; 404 when no daily page has it; otherwise exactly the first such page gets Completed = (completed === true) |
| DailyUpdate.CompletedFlagOnlyForTrue | app/api/daily-workouts/update/route.ts:48 | the flag is set only for JSON `true`, not for "true", 1, null or absence |
| ExercisesBest.FetchBests | app/api/exercises/best/route.ts:6-44 | 400 unless the ids are an array; otherwise a map with exactly the given ids, each mapped to its best |
| ExercisesBest.BestFallback | app/api/exercises/best/route.ts:26-34 | an unknown exercise has best 0; a known one has its lowercase `best` property defaulting to 0 |
| ExercisesBest.BestOf | app/api/exercises/best/route.ts:23-34 | definition of one best, with 0 for a failed retrieval; ExercisesBest.BestFallback states both cases |
| ByBodyGroups.BodyGroupNames | app/api/exercises/by-body-groups/route.ts:28-38 | exactly the requested ids that resolve get an entry, with the body group's first title |
| ByBodyGroups.Summarize | app/api/exercises/by-body-groups/route.ts:41-56 | the name of the body group is set iff the first body-group id has a name |
| ByBodyGroups.ExercisesByBodyGroups | app/api/exercises/by-body-groups/route.ts:6-69 | 400 unless a nonempty array; otherwise exactly the exercises sharing a body group with the request, in store order, each named after the first title of its first body group when that group resolves |
| ByBodyGroups.NoRelationNeverSelected | app/api/exercises/by-body-groups/route.ts:58-60 | an exercise without body groups is never returned |
| ByBodyGroups.Intersects | app/api/exercises/by-body-groups/route.ts:57-60 | definition of the `some`/`includes` test; ByBodyGroups.ExercisesByBodyGroups states the selection it makes |
| ViewCompletedModal.LoadWorkoutData | app/components/ViewCompletedWorkoutModal.tsx:40-92 | an empty list leaves the view as it was; otherwise the title is parsed from the first workout's name and exercise i is workout i converted, keyed by its page id |
| ViewCompletedModal.ExerciseDataFields | app/components/ViewCompletedWorkoutModal.tsx:66-83 | sets, reps, weight and completed carry the workout's value when present and default to 0 and false when absent; actual equals default; the name is the part after the separator; the best is the entry under exerciseId (or "undefined"), else 0 |
| ViewCompletedModal.ViewOfComposedEntries | app/components/ViewCompletedWorkoutModal.tsx:49-83 | for entries composed from one template, the view shows the template name and each exercise name |
| ViewCompletedModal.ServedRowsShowNoBest | app/components/ViewCompletedWorkoutModal.tsx:55-81 | rows as GET serves them carry no exerciseId or completed flag: the best is the one keyed "undefined" (0 when absent) and the exercise is never completed |
| ViewCompletedModal.ToExerciseData | app/components/ViewCompletedWorkoutModal.tsx:66-83 | definition of one view row; ViewCompletedModal.ExerciseDataFields states its fields |
| ViewCompletedModal.ShowsNewRecord | app/components/ViewCompletedWorkoutModal.tsx:184-189 | definition of the badge condition; ViewCompletedModal.NewRecordOfWorkout states when it shows |
| ViewCompletedModal.NewRecordOfWorkout | app/components/ViewCompletedWorkoutModal.tsx:184-189 | the New Record badge shows iff the max weight equals a positive personal best; a day at weight 0 never shows it |
| WorkoutEditModal.LoadRows | app/components/WorkoutEditModal.tsx:73-87 | one editable row per served workout, with the page id, the parsed exercise name, the first exercise id and the counts |
| WorkoutEditModal.LoadCreatedEntries | app/components/WorkoutEditModal.tsx:73-87 | an entry created from a template loads back with its exercise id, exercise name and defaults |
| WorkoutEditModal.PageIds | app/components/WorkoutEditModal.tsx:140-149 | exactly the nonempty page ids of the rows |
| WorkoutEditModal.NoPageIds | app/components/WorkoutEditModal.tsx:140-149 | rows without page ids give none |
| WorkoutEditModal.CollectMissing | app/components/WorkoutEditModal.tsx:140-160 | exactly the original ids absent from the current ones, in order |
| WorkoutEditModal.DeletedPagesMeaning | app/components/WorkoutEditModal.tsx:140-149 | a page id is reported deleted iff an original row had it and no current row has it; no repeats |
| WorkoutEditModal.TemplateExerciseIdsMeaning | app/components/WorkoutEditModal.tsx:152-160 | the template exercise ids are exactly those of rows without a page |
| WorkoutEditModal.DeletedExercisesMeaning | app/components/WorkoutEditModal.tsx:152-160 | an exercise id is reported deleted iff an original row without a page had it and no current row has it; no repeats |
| WorkoutEditModal.DeletedPages | app/components/WorkoutEditModal.tsx:140-149 | definition of the deleted page ids; WorkoutEditModal.DeletedPagesMeaning states exactly which they are |
| WorkoutEditModal.DeletedExercises | app/components/WorkoutEditModal.tsx:152-160 | definition of the deleted exercise ids; WorkoutEditModal.DeletedExercisesMeaning states exactly which they are |
| WorkoutEditModal.EditModal.constructor | app/components/WorkoutEditModal.tsx:36-42 | the modal starts with no selection and empty lists |
| WorkoutEditModal.EditModal.Open | app/components/WorkoutEditModal.tsx:45-63 | without a date nothing changes; with a current template it is selected, both deleted lists are cleared and the day's workouts are loaded; without one the selection and every list are reset to empty |
| WorkoutEditModal.EditModal.LoadWorkoutsForDay | app/components/WorkoutEditModal.tsx:65-94 | both the edited and the original list become the loaded rows |
| WorkoutEditModal.EditModal.HandleTemplateChange | app/components/WorkoutEditModal.tsx:118-134 | selects the template, clears the deleted lists and loads its exercises when it is known |
| WorkoutEditModal.EditModal.HandleExercisesChange | app/components/WorkoutEditModal.tsx:136-167 | adopts the new list; outside create mode the deleted lists become exactly the vanished page and exercise ids |
| WorkoutEditModal.EditModal.HandleSave | app/components/WorkoutEditModal.tsx:169-190 | nothing without a template; otherwise a delete call per deleted page, in order, then the save with the list and the deleted exercise ids |
| WorkoutEditModal.TemplateSwitchThenSave | app/components/WorkoutEditModal.tsx:118-167 | right after a template switch nothing is reported deleted |

## Left out

- The Notion client, the network and authentication are not modelled. The
  `Workspace` records stand in for the databases. Database ids and property
  types are implicit in the record fields.
- Pagination is not modelled. A query returns every matching page at once.
- The GET `/api/workouts` sort by Date descending and the templates query's
  sort by Name are not modelled. Those results come in store order. The
  template-exercise sort by Order is modelled, with an empty Order counted
  as 0.
- Store.FreshId: Notion assigns page ids. The model picks one that differs
  from all existing ids and claims nothing more about its form.
- TemplatesStorage.TemplateRepository.CreateTemplate: `Date.now()` is a
  parameter. Two templates created in the same millisecond would share an
  id; the model claims no uniqueness.
- TemplatesStorage.TemplateRepository.GetTemplates returns a value. The
  caller's aliasing of the live array is not modelled.
- TemplatesStorage.MergeProperties: a patch field that is present but set
  to `undefined` is treated as absent.
- Dates are strings. Matching is string equality and the GET range is
  inclusive lexicographic order. Calendar and time-zone semantics are left
  out.
- JavaScript numbers are integers. NaN, fractions and floating-point
  rounding are left out.
- Request fields are either missing or strings. A number or object sent
  where a string is expected is not modelled. JSON `null` items in the best
  route's id array are modelled through the key "undefined" in the view
  modal only.
- `pages.retrieve` is modelled as a lookup in one collection: the templates
  in the two workout-creating routes, the body groups in the body-group route
  and the exercises in the best route. Notion returns a page of any
  database, so an id of, say, a weekly page passed as a template id gets its
  title and a 200 from the route; the model answers 500 (or skips the
  lookup, or uses 0) for it.
- Failures of the Notion calls themselves are not modelled. The catch-all
  500s that only a thrown Notion error reaches ("Failed to fetch
  templates", the GET `/api/workouts` catch, "Failed to move workout",
  "Failed to update daily workout", "Failed to fetch personal bests",
  "Failed to fetch exercises") never occur in the model, and neither does
  a 500 after some writes of the POST `/api/workouts`, delete or move loops
  have gone through: every write either happens or the route answers before
  any write.
- The daily database is one collection. The update route hard-codes its id
  (`app/api/daily-workouts/update/route.ts:20`) and the move route reads it
  from `NOTION_DAILY_WORKOUTS_DB` (`app/api/workouts/move/route.ts:23`); the
  model assumes the two name the same database.
- Updating an already archived page, or a page id of another database, is
  not modelled. `pages.update` is applied only to ids of the weekly or daily
  store.
- React rendering, effects scheduling, fetch calls, loading and saving flags,
  `loadAvailableExercises` and `onClose` are not modelled. The modal
  methods take the fetched data as arguments. `isCreateMode` is fixed for
  each modal instance.
- The thin pass-through routes, the daily-workouts listing route and the
  type declarations are not part of this model.
- `parseInt` whitespace: `JsNumbers.IsWhiteSpace` lists JavaScript's white
  space and line terminators by code point. Any future Unicode additions to
  the space category are not tracked.
- CompositeName.ParseCompose requires a template name with no " - " that
  does not end in " -". For a name ending in " -",
  CompositeName.TrailingDashBreaksRoundTrip shows the exercise name coming
  back as "- " followed by the name.
- WorkoutEditModal.EditModal.HandleTemplateChange: `templates.find` is
  modelled by the first template with the id.
