# gym-gazer-log core in Dafny

A verified model of the core of the gym-gazer-log workout tracker. It covers:

- The **entity model**: the three enumerations (11 muscle groups, 8 equipment kinds, 7 set types), their label tables, and the records `Exercise`, `WorkoutSet`, `WorkoutExercise`, `Workout` and `Routine` (`workout_types.dfy`).
- The **workout store** (`workout_store.dfy`). It is a class `WorkoutStore` with three fields: the history `workouts` (newest first), the in-progress `activeWorkout`, and the `idCounter` behind `genId`. Each action of the store is a method that rewrites those fields. The pure `map`/`filter`/spread rewrites that the actions apply to the nested `exercises` and `sets` are functions in `session_edits.dfy`. `Valid()` is the invariant of the store. Every id has been handed out already. The history holds only completed workouts, under distinct ids. The active workout is not completed and its id is not in the history. Among the active workout's own id, its entry ids and its set ids, no id occurs twice: the multiset of those ids has no repeats. Every action keeps `Valid()`; `updateSet` keeps it only for a patch that leaves the set id alone.
- The **derived metrics** of `personalRecords.ts`:
  - `calc1RM` and `getPersonalRecords` (`personal_records.dfy`);
  - the muscle-group distribution, the weekly buckets, the day streak and the consistency score (`training_stats.dfy`).

  Each loop of the source is a method with loop invariants. Each method is proved equal to a specification function, and the source's promises are lemmas about those functions.
- The **exercise catalog**: the 43 built-in entries, the lookup by muscle group and the case-insensitive search (`exercise_catalog.dfy`).

Shared helpers: `wrappers.dfy` (`Option`) and `seqs.dfy` (an order-preserving `Filter` and the subsequence relation).

Abstractions:

- Ids from `genId` are the counter values it hands out: 1, 2, 3, and so on.
- Dates are millisecond timestamps, and the current time `now` is a parameter.
- A calendar day is the UTC day `t / 86400000`, and a week is exactly seven days.
- Weights and repetitions are integers, so `Math.round(weight * (1 + reps / 30))` is computed exactly as `floor(weight * (30 + reps) / 30 + 1/2)`.
- Lower-casing affects only ASCII capitals.

Where the code and its prose description differ, the model follows the code:

- `finishWorkout` returns nothing and does not clamp the duration, so a clock that reads earlier than the start gives a negative duration (`FinishedBeforeStartIsNegative`).
- The store has no start-from-a-routine action.
- `updateSet` merges the patch without validation.
- With `weeks == 0`, `getConsistencyScore` divides `0 / 0` and returns `NaN`; the model returns `None`. With `weeks < 0` the loop never runs, and the source returns `-0`, modelled as `Some(0)`.

## Model

| member | source | states |
|---|---|---|
| WorkoutTypes.SetTypesEnumerated | src/types/workout.ts:9-11 | There are exactly seven set types, all listed, with no repeats |
| WorkoutTypes.MuscleGroupsEnumerated | src/types/workout.ts:1-3 | There are exactly eleven muscle groups, all listed, with no repeats |
| WorkoutTypes.EquipmentEnumerated | src/types/workout.ts:5-7 | There are exactly eight equipment kinds, all listed, with no repeats |
| WorkoutTypes.SetTypeTablesTotal | src/types/workout.ts:66-84 | Every set type has a non-empty label and a non-empty colour, and distinct types have distinct labels |
| WorkoutTypes.MuscleGroupTablesTotal | src/types/workout.ts:86-98 | Every muscle group has a non-empty label and a non-empty key, and both are injective |
| WorkoutTypes.EquipmentTablesTotal | src/types/workout.ts:100-109 | Every equipment kind has a non-empty label and a non-empty key, and both are injective |
| ExerciseCatalog.ToLower | src/data/exercises.ts:65-67 | Lower-casing keeps the length, maps each character on its own, and leaves no capital |
| ExerciseCatalog.ToLowerFixesLowerCase | src/data/exercises.ts:65-67 | A string with no capitals is its own lower-case form |
| ExerciseCatalog.ToLowerIdempotent | src/data/exercises.ts:65-67 | Lower-casing twice is the same as lower-casing once |
| ExerciseCatalog.IncludesAtOffset | src/data/exercises.ts:67-69 | `includes` holds exactly when the query occurs at some offset of the string |
| ExerciseCatalog.ByMuscle | src/data/exercises.ts:60-62 | The result is an order-preserving subsequence of the catalog, and an entry is in it exactly when its primary group's key is the argument |
| ExerciseCatalog.Search | src/data/exercises.ts:64-71 | The result is an order-preserving subsequence of the catalog, and an entry is in it exactly when the lower-cased query occurs in its lower-cased name, its muscle-group key or its equipment key |
| ExerciseCatalog.ExercisesByMuscle | src/data/exercises.ts:60-62 | An entry is returned exactly when it is in the catalog and its primary group's key is the argument |
| ExerciseCatalog.SearchExercises | src/data/exercises.ts:64-71 | An entry is returned exactly when it is in the catalog and the lower-cased query occurs in its lower-cased name, its muscle-group key or its equipment key |
| ExerciseCatalog.SearchEmptyQueryKeepsAll | src/data/exercises.ts:64-71 | The empty query returns the whole catalog |
| ExerciseCatalog.SearchIgnoresQueryCase | src/data/exercises.ts:65 | Searching for `q` and for `q` lower-cased give the same result |
| ExerciseCatalog.MuscleGroupKeyIsLowerCase | src/types/workout.ts:1-3 | Muscle-group keys are already in lower case |
| ExerciseCatalog.SearchFindsMuscleGroup | src/data/exercises.ts:60-71 | Searching for a group's key finds every entry that the lookup by that group returns |
| ExerciseCatalog.ByMuscleNonEmpty | src/data/exercises.ts:60-62 | A catalog that holds an entry of a group gives a non-empty lookup for that group |
| ExerciseCatalog.CatalogIdsDistinct | src/data/exercises.ts:3-58 | The 43 catalog ids are pairwise distinct |
| ExerciseCatalog.EveryMuscleGroupCatalogued | src/data/exercises.ts:3-62 | Every muscle group has at least one entry in the catalog |
| ExerciseCatalog.UpperBodyCatalogued | src/data/exercises.ts:4-32 | Chest, back, shoulders, biceps and triceps each have an entry in the catalog |
| ExerciseCatalog.LowerBodyCatalogued | src/data/exercises.ts:33-57 | Forearms, core, quadriceps, hamstrings, glutes and calves each have an entry in the catalog |
| SessionEdits.CountId | src/stores/workoutStore.ts:73-74 | The number of entries with a given id is at most the number of entries |
| SessionEdits.CountIdAtMostIds | src/stores/workoutStore.ts:24-25 | An entry id occurs in the id multiset at least as often as entries carry it |
| SessionEdits.CountIdPositive | src/stores/workoutStore.ts:73-74 | An id that some entry carries has a positive count |
| SessionEdits.CountIdPair | src/stores/workoutStore.ts:73-74 | Two entries that share an id give that id a count of at least two |
| SessionEdits.WellFormedEntryIdsDistinct | src/stores/workoutStore.ts:56-57 | In exercises with no repeated id, no two entries share an id |
| SessionEdits.SetIdsAppend | src/stores/workoutStore.ts:83 | Appending a set adds its id to the set ids |
| SessionEdits.IdsOfAppend | src/stores/workoutStore.ts:61 | Appending an entry adds its id and its set ids to the id multiset |
| SessionEdits.SetIdsSubsequence | src/stores/workoutStore.ts:103 | Filtered sets hold no id more often than the original sets |
| SessionEdits.IdsOfSubsequence | src/stores/workoutStore.ts:67 | Filtered entries hold no id more often than the original entries |
| SessionEdits.FewerIdsWellFormed | src/stores/workoutStore.ts:64-68 | Exercises whose id multiset is contained in that of well-formed exercises are well-formed |
| SessionEdits.NewWorkoutExercise | src/stores/workoutStore.ts:56-60 | The new entry holds the exercise and one set, normal and incomplete, with weight 0 and reps 0; `AppendExerciseWellFormed` and `AddExerciseToWorkout` state what appending it does |
| SessionEdits.WellFormedMonotone | src/stores/workoutStore.ts:24-25 | Ids handed out by an earlier counter value were also handed out by a later one |
| SessionEdits.AppendExerciseWellFormed | src/stores/workoutStore.ts:53-62 | Appending an entry whose entry id and set id are the next two counter values adds exactly those two ids to the id multiset, so no id repeats and every id was handed out |
| SessionEdits.RemoveExercise | src/stores/workoutStore.ts:67 | The result is an order-preserving subsequence without the id, keeps every other entry, and is the input when the id is absent |
| SessionEdits.SubsequenceMembers | src/stores/workoutStore.ts:67 | Every element of a filtered sequence is an element of the original |
| SessionEdits.AddSetTo | src/stores/workoutStore.ts:73-84 | The map keeps the length and every entry with another id, and the generator is called once per matching entry |
| SessionEdits.AddSetToAt | src/stores/workoutStore.ts:73-84 | The i-th matching entry gains, at the end of its sets, the set carried from its last set under the id generated for it |
| SessionEdits.CountIdDistinct | src/stores/workoutStore.ts:73-74 | When ids are distinct, an absent id occurs zero times and a present id once, with no earlier occurrence |
| SessionEdits.AddSetToAbsent | src/stores/workoutStore.ts:73-85 | Adding a set to an id no entry has changes no entry and hands out no id |
| SessionEdits.AddSetToUnique | src/stores/workoutStore.ts:73-85 | Adding a set to a unique entry hands out exactly one id, adds exactly one set to that entry (the last set's weight and reps or 0 and 0, normal, incomplete) and leaves every other entry unchanged |
| SessionEdits.CarriedSet | src/stores/workoutStore.ts:75-82 | The new set carries the last set's weight and reps, or 0 and 0 when the entry has no set, and is normal and incomplete; `AddSetToAt` and `AddSetToUnique` state where it goes |
| SessionEdits.FreshCount | src/stores/workoutStore.ts:24-25 | The ids handed out while the counter moves from a to b are a + 1 to b, each once |
| SessionEdits.FreshIdsDistinct | src/stores/workoutStore.ts:24-25 | Distinct ids up to the counter, joined by the ids handed out after it, are still distinct and bounded by the new counter |
| SessionEdits.AddSetToIds | src/stores/workoutStore.ts:73-84 | The map adds to the id multiset exactly the ids the generator hands out during it |
| SessionEdits.AddSetToWellFormed | src/stores/workoutStore.ts:70-86 | Adding a set adds exactly the ids handed out, the counter values after the old one up to the new one, so no id repeats under the counter's new value |
| SessionEdits.MapSet | src/stores/workoutStore.ts:93 | Only the sets with the given id are rewritten; the rest keep their place and value |
| SessionEdits.EditSet | src/stores/workoutStore.ts:91-94 | Only the addressed set of the addressed entry is rewritten; every other entry and set, and every entry id and exercise, is kept |
| SessionEdits.MapSetIds | src/stores/workoutStore.ts:93 | Rewriting sets by a function that keeps ids keeps the set ids |
| SessionEdits.EditSetIds | src/stores/workoutStore.ts:91-94 | Rewriting by a function that keeps ids keeps the id multiset |
| SessionEdits.EditSetWellFormed | src/stores/workoutStore.ts:88-96 | A rewrite that keeps set ids leaves the id multiset unchanged, so the exercises stay well-formed |
| SessionEdits.EditSetAbsent | src/stores/workoutStore.ts:91-94 | With no such set in such an entry, the rewrite changes nothing |
| SessionEdits.ApplyPatchLaws | src/stores/workoutStore.ts:93 | Merging the empty patch is the identity, merging a patch is idempotent, and a patch without an id keeps the id |
| SessionEdits.ApplyPatch | src/stores/workoutStore.ts:93 | The spread: each field given in the patch wins and every other field is kept, with the laws stated by `ApplyPatchLaws` |
| SessionEdits.PatchSet | src/stores/workoutStore.ts:91-94 | `updateSet`'s rewrite is the edit of the addressed set by the patch merge; `PatchSetEmpty` and `PatchSetIdempotent` state its laws |
| SessionEdits.PatchSetEmpty | src/stores/workoutStore.ts:88-96 | `updateSet` with an empty patch leaves the exercises unchanged |
| SessionEdits.PatchSetIdempotent | src/stores/workoutStore.ts:88-96 | Applying the same patch twice is applying it once, whatever fields it sets, the set id included |
| SessionEdits.Flip | src/stores/workoutStore.ts:113 | The set with its completion flag negated |
| SessionEdits.ToggleSet | src/stores/workoutStore.ts:111-114 | `toggleSetComplete`'s rewrite is the edit of the addressed set by `Flip`; `ToggleSetTwice` states that it is its own inverse |
| SessionEdits.ToggleSetTwice | src/stores/workoutStore.ts:108-116 | Toggling the same set twice restores the exercises |
| SessionEdits.RemoveSetIn | src/stores/workoutStore.ts:103 | The sets without the id as an order-preserving subsequence: every other set is kept, and the sets are returned unchanged when the id is absent |
| SessionEdits.RemoveSet | src/stores/workoutStore.ts:101-104 | Only the addressed entry loses sets; entry ids, exercises and order are kept |
| SessionEdits.RemoveSetIds | src/stores/workoutStore.ts:101-104 | Removing sets never adds an id to the id multiset |
| SessionEdits.RemoveSetWellFormed | src/stores/workoutStore.ts:98-106 | Removing a set never adds an id to the id multiset, so the exercises stay well-formed |
| SessionEdits.RemoveExerciseWellFormed | src/stores/workoutStore.ts:64-68 | Removing an exercise entry never adds an id to the id multiset, so the exercises stay well-formed |
| SessionEdits.NewWorkout | src/stores/workoutStore.ts:34-40 | The workout `startWorkout` creates: no exercises, not completed, no duration; `StartWorkout` states its use |
| SessionEdits.Finished | src/stores/workoutStore.ts:49 | The finished workout is the active one, completed, with a duration equal to the elapsed time in whole minutes rounded down |
| SessionEdits.FinishedBeforeStartIsNegative | src/stores/workoutStore.ts:49 | Nothing clamps the duration: finishing before the start gives a negative duration |
| SessionEdits.RemoveWorkout | src/stores/workoutStore.ts:119 | The history without the id as an order-preserving subsequence: every other workout is kept, and the history is returned unchanged when the id is absent |
| SessionEdits.RemoveWorkoutDistinct | src/stores/workoutStore.ts:119 | Deleting keeps the history's ids distinct |
| SessionEdits.WorkoutSubsequenceDistinct | src/stores/workoutStore.ts:119 | A subsequence of a history with distinct ids has distinct ids |
| Store.WorkoutStore.constructor | src/stores/workoutStore.ts:24-31 | The store starts with an empty history, no active workout and the counter at 0, and it is valid |
| Store.WorkoutStore.GenId | src/stores/workoutStore.ts:24-25 | The counter is incremented first and its new value is returned; nothing else changes |
| Store.WorkoutStore.StartWorkout | src/stores/workoutStore.ts:33-42 | A fresh empty, incomplete workout with a new id replaces any active one; the history is unchanged; validity is kept |
| Store.WorkoutStore.CancelWorkout | src/stores/workoutStore.ts:44 | No workout is active afterwards; the history and the counter are unchanged |
| Store.WorkoutStore.FinishWorkout | src/stores/workoutStore.ts:46-51 | With no active workout nothing changes; otherwise the finished copy goes to the front of the history and no workout is active |
| Store.WorkoutStore.AddExerciseToWorkout | src/stores/workoutStore.ts:53-62 | No-op without an active workout; otherwise exactly one new entry, with one blank set, is appended using two fresh ids |
| Store.WorkoutStore.RemoveExerciseFromWorkout | src/stores/workoutStore.ts:64-68 | No-op without an active workout; otherwise the entries with the id are filtered out |
| Store.WorkoutStore.AddSet | src/stores/workoutStore.ts:70-86 | No-op without an active workout; otherwise the exercises and the counter are those `AddSetTo` gives |
| Store.WorkoutStore.UpdateSet | src/stores/workoutStore.ts:88-96 | No-op without an active workout; otherwise the patch is merged into the addressed set; validity is kept when the patch leaves the id alone |
| Store.WorkoutStore.RemoveSet | src/stores/workoutStore.ts:98-106 | No-op without an active workout; otherwise the addressed set leaves the addressed entry |
| Store.WorkoutStore.ToggleSetComplete | src/stores/workoutStore.ts:108-116 | No-op without an active workout; otherwise only the addressed set's completion flag flips |
| Store.WorkoutStore.DeleteWorkout | src/stores/workoutStore.ts:118-120 | The workouts with the id leave the history, whether or not a workout is active; nothing else changes |
| Store.FinishScenario | src/stores/workoutStore.ts:44-51 | Start, add one exercise, finish after 45 minutes and finish again: the history holds that one completed workout with its entry and a 45-minute duration, and nothing is active |
| Store.CancelScenario | src/stores/workoutStore.ts:44-51 | Start, cancel and finish: the history stays empty and nothing is active |
| PersonalRecords.Calc1RM | src/lib/personalRecords.ts:12-16 | Zero for non-positive reps or weight; the weight itself for one rep; otherwise the integer closest to `weight * (1 + reps / 30)` (within a half), never below the weight |
| PersonalRecords.Calc1RMMonotoneInWeight | src/lib/personalRecords.ts:12-16 | With the same reps, a heavier set never has a smaller estimate |
| PersonalRecords.Calc1RMMonotoneInReps | src/lib/personalRecords.ts:12-16 | With the same weight, more reps (from 1 up) never give a smaller estimate |
| PersonalRecords.SetCandidatesMembers | src/lib/personalRecords.ts:23-35 | The candidates of an entry's sets are exactly the records of its completed sets of positive weight |
| PersonalRecords.ExerciseCandidatesMembers | src/lib/personalRecords.ts:22-37 | The candidates of a workout's entries are exactly the candidates of one of its entries |
| PersonalRecords.HistoryCandidatesMembers | src/lib/personalRecords.ts:21-38 | The candidates of a history are exactly the candidates of one of its workouts |
| PersonalRecords.WorkoutCandidatesMembers | src/lib/personalRecords.ts:22-37 | The candidates of a workout are exactly the records of its qualifying sets |
| PersonalRecords.HistoryCandidatesAreQualifyingSets | src/lib/personalRecords.ts:21-38 | The candidates are exactly the records of the history's completed sets of positive weight |
| PersonalRecords.Scan | src/lib/personalRecords.ts:19-39 | The table built by the loops files each record under its own name and lists each name once, in insertion order |
| PersonalRecords.ScanKeys | src/lib/personalRecords.ts:27-29 | A name has a record exactly when some candidate carries that name |
| PersonalRecords.OfferGrows | src/lib/personalRecords.ts:27-36 | One step keeps every name and never lowers a record; afterwards the offered name's record is at least the offered one |
| PersonalRecords.Offer | src/lib/personalRecords.ts:27-36 | The loop body: a new name is inserted, a known one replaced only by a strictly larger estimate; `OfferGrows` and `ScanKeepsFirstMaximum` state its effect |
| PersonalRecords.ScanMaximal | src/lib/personalRecords.ts:26-36 | Every candidate's estimate is at most its name's record |
| PersonalRecords.ScanKeepsFirstMaximum | src/lib/personalRecords.ts:28 | Each record is a candidate whose earlier same-named candidates all have strictly smaller estimates, so a tie keeps the first |
| PersonalRecords.InsertPosition | src/lib/personalRecords.ts:41-42 | The insertion point comes after every record with a strictly larger estimate and before the first one that is not larger |
| PersonalRecords.Splice | src/lib/personalRecords.ts:41-42 | Inserting at a position shifts the later records by one and adds exactly that record |
| PersonalRecords.InsertSorted | src/lib/personalRecords.ts:41-42 | Inserting at the insertion point keeps the estimates non-increasing |
| PersonalRecords.InsertByEstimate | src/lib/personalRecords.ts:41-42 | The insertion gives a sorted permutation of the old records plus the new one |
| PersonalRecords.SortByEstimate | src/lib/personalRecords.ts:41-42 | The sort returns a permutation of its input in non-increasing order of estimate |
| PersonalRecords.InsertStableHead | src/lib/personalRecords.ts:41-42 | The inserted head comes before every record placed after it, as it does in the input |
| PersonalRecords.InsertStableTail | src/lib/personalRecords.ts:41-42 | Two records from the tail that tie keep the order they had in the input |
| PersonalRecords.InsertStable | src/lib/personalRecords.ts:41-42 | Inserting the head into a stable sort of the tail gives a stable sort |
| PersonalRecords.SortByEstimateStable | src/lib/personalRecords.ts:41-42 | The sort is stable: records with equal estimates keep their input order |
| PersonalRecords.ScanSnoc | src/lib/personalRecords.ts:27-36 | Scanning one more candidate is one more step |
| PersonalRecords.SetStep | src/lib/personalRecords.ts:23-37 | One pass of the innermost loop is one more scan step, or none for a set that does not qualify |
| PersonalRecords.ExerciseStep | src/lib/personalRecords.ts:22-38 | Finishing an entry's sets finishes that entry's candidates |
| PersonalRecords.HistoryStep | src/lib/personalRecords.ts:21-39 | Finishing a workout's entries finishes that workout's candidates |
| PersonalRecords.GetPersonalRecords | src/lib/personalRecords.ts:18-43 | The three loops followed by the sort return exactly the sorted values of the scanned table |
| PersonalRecords.PersonalRecordsOf | src/lib/personalRecords.ts:18-43 | `getPersonalRecords` as a function of the history; the `PersonalRecords...` lemmas state its properties |
| PersonalRecords.ValuesMembers | src/lib/personalRecords.ts:41 | The table's values are exactly its records, one per name |
| PersonalRecords.DistinctMultiplicity | src/lib/personalRecords.ts:41-42 | A sequence without repeats holds each value at most once |
| PersonalRecords.RepeatMultiplicity | src/lib/personalRecords.ts:41-42 | A value at two positions is held at least twice |
| PersonalRecords.RecordsOfTable | src/lib/personalRecords.ts:41-42 | The sorted output holds exactly the table's records, with no name twice |
| PersonalRecords.ScanRecordsMaximal | src/lib/personalRecords.ts:26-42 | Every candidate has a record of its name in the output with an estimate at least its own |
| PersonalRecords.ScanRecordsFirstMaximum | src/lib/personalRecords.ts:28-42 | Every output record is a candidate with no earlier same-named candidate as large |
| PersonalRecords.PersonalRecordsSortedAndDistinct | src/lib/personalRecords.ts:18-43 | The records are in non-increasing order of estimate, with one record per exercise name |
| PersonalRecords.PersonalRecordsMaximal | src/lib/personalRecords.ts:21-37 | Every completed set of positive weight has a record of its exercise's name whose estimate is at least the set's |
| PersonalRecords.PersonalRecordsFromSets | src/lib/personalRecords.ts:24-35 | Every record comes from a completed set of positive weight in the history, with that set's weight, reps, date and estimate |
| PersonalRecords.PersonalRecordsKeepEarliest | src/lib/personalRecords.ts:28 | On ties the first set in scan order is kept, because replacement needs a strictly larger estimate |
| PersonalRecords.PersonalRecordsTiesInInsertionOrder | src/lib/personalRecords.ts:41-42 | Records with equal estimates are listed in the order in which their names entered the table |
| PersonalRecords.BenchPressCandidates | src/lib/personalRecords.ts:21-37 | In a sample workout, an unticked set makes no candidate and the ticked ones make one each, in set order |
| PersonalRecords.BenchPressRecord | src/lib/personalRecords.ts:18-43 | In a sample workout, 110 kg x 3 (estimate 121) beats 100 kg x 5 (estimate 117), whatever the set order, and the heavier unticked single is ignored |
| TrainingStats.TallyCharacterized | src/lib/personalRecords.ts:45-54 | A group is a key exactly when some entry trains it, and its value is the number of sets of those entries |
| TrainingStats.Tally | src/lib/personalRecords.ts:45-54 | The distribution the loops build: each entry adds its set count to its primary group; `TallyCharacterized` and `TallySumsToSets` state what it holds |
| TrainingStats.TotalOverAdd | src/lib/personalRecords.ts:50 | Adding `n` to one group adds `n` to the sum over a repeat-free list of groups that names it |
| TrainingStats.TallySumsOver | src/lib/personalRecords.ts:45-54 | Summed over any repeat-free list of all groups, the distribution counts every set once |
| TrainingStats.TotalOverEmpty | src/lib/personalRecords.ts:46 | The empty distribution sums to zero |
| TrainingStats.TallySumsToSets | src/lib/personalRecords.ts:45-54 | The distribution's values sum to the total number of sets, completed or not |
| TrainingStats.TallyStep | src/lib/personalRecords.ts:48-51 | One pass of the inner loop adds the entry's set count to its group |
| TrainingStats.AllEntriesStep | src/lib/personalRecords.ts:47-52 | One pass of the outer loop adds the workout's entries |
| TrainingStats.GetMuscleGroupDistribution | src/lib/personalRecords.ts:45-54 | The two loops build exactly the distribution of the history's entries |
| TrainingStats.DistributionCorrect | src/lib/personalRecords.ts:45-54 | The keys are exactly the primary groups that occur in the history, and the values sum to its number of sets |
| TrainingStats.AllEntriesMembers | src/lib/personalRecords.ts:47-48 | The entries visited are exactly the entries of the history's workouts |
| TrainingStats.InWindow | src/lib/personalRecords.ts:66-69 | The workouts kept are from the history and dated in the half-open week, and every workout of the history dated in it is kept |
| TrainingStats.GetWeeklyActivity | src/lib/personalRecords.ts:56-82 | Returns exactly `weeks` buckets (none for `weeks <= 0`), oldest first; the k-th covers its own week of the history, with its count and volume |
| TrainingStats.HistoryVolumeAppend | src/lib/personalRecords.ts:71-75 | Volume adds up over a concatenation |
| TrainingStats.HistoryVolume | src/lib/personalRecords.ts:71-75 | The outer `reduce`: the sum of the workouts' volumes; `HistoryVolumeAppend` states that it adds up over concatenation |
| TrainingStats.EntriesVolume | src/lib/personalRecords.ts:72-74 | The middle `reduce`: the sum of the entries' set volumes |
| TrainingStats.SetsVolume | src/lib/personalRecords.ts:73 | The inner `reduce`: the sum of weight times reps over the sets, completed or not |
| TrainingStats.WindowSplitCount | src/lib/personalRecords.ts:66-69 | Splitting a window at an inner instant splits its workouts |
| TrainingStats.WindowSplitVolume | src/lib/personalRecords.ts:71-75 | Splitting a window at an inner instant splits its volume |
| TrainingStats.Buckets | src/lib/personalRecords.ts:60-79 | The n buckets, oldest first, the k-th covering week n-1-k before now |
| TrainingStats.Bucket | src/lib/personalRecords.ts:61-78 | One week's bucket: its start, and the count and volume of the workouts in it; `BucketsTile` and `BucketsDisjoint` state how the buckets cover the history |
| TrainingStats.BucketsTile | src/lib/personalRecords.ts:60-79 | The buckets together count exactly the workouts, and the volume, of the last n weeks |
| TrainingStats.WeeksBeforeStep | src/lib/personalRecords.ts:61-64 | Each week boundary is one week before the previous one |
| TrainingStats.EmptyWindow | src/lib/personalRecords.ts:66-69 | An empty interval holds no workouts |
| TrainingStats.WeeklyCountsBounded | src/lib/personalRecords.ts:56-82 | The counts sum to at most the number of workouts, and an empty history gives all zeros |
| TrainingStats.BucketsDisjoint | src/lib/personalRecords.ts:60-69 | No workout falls in two different buckets |
| TrainingStats.WeeksBeforeMonotone | src/lib/personalRecords.ts:61-64 | Week boundaries move back as the index grows |
| TrainingStats.DayOfShift | src/lib/personalRecords.ts:88-90 | Going back k whole days goes back k calendar days |
| TrainingStats.DayOf | src/lib/personalRecords.ts:88-90 | The UTC calendar day of an instant; `DayOfShift` states that whole days shift it by whole days |
| TrainingStats.AnyOnDay | src/lib/personalRecords.ts:91 | True exactly when some workout is dated on that day |
| TrainingStats.Run | src/lib/personalRecords.ts:87-93 | The run from day i back stays within the 365-day scan |
| TrainingStats.GetStreak | src/lib/personalRecords.ts:84-95 | The loop with its `break` returns the streak: today counts if active, then consecutive active days from yesterday back |
| TrainingStats.Streak | src/lib/personalRecords.ts:84-95 | Today counts when active, then the run of active days from yesterday back; `StreakBounded`, `RunCharacterized` and the sample lemmas state its properties |
| TrainingStats.StreakBounded | src/lib/personalRecords.ts:84-95 | The streak lies in [0, 365] |
| TrainingStats.EmptyHistoryStreak | src/lib/personalRecords.ts:84-95 | An empty history has streak 0 |
| TrainingStats.RunCharacterized | src/lib/personalRecords.ts:91-92 | Every day the run counts is active, and the first day past it (inside the scan) is not |
| TrainingStats.StreakTodayAndYesterday | src/lib/personalRecords.ts:84-95 | Workouts today and yesterday give a streak of 2 |
| TrainingStats.StreakFromYesterday | src/lib/personalRecords.ts:91-92 | An empty today does not stop the scan: yesterday and the day before give 2 |
| TrainingStats.StreakStopsAtGap | src/lib/personalRecords.ts:92 | An empty yesterday ends the streak at today's 1 |
| TrainingStats.ActiveDays | src/lib/personalRecords.ts:99-107 | At most as many active days as days scanned |
| TrainingStats.RoundPercent | src/lib/personalRecords.ts:109 | `Math.round(a / t * 100)` computed exactly: the integer within a half of `100 * a / t`, rounding halves up |
| TrainingStats.MulMonotone | src/lib/personalRecords.ts:109 | Multiplying by a natural number keeps order |
| TrainingStats.RoundPercentUnique | src/lib/personalRecords.ts:109 | The rounded percentage is the only integer that meets that bound |
| TrainingStats.RoundPercentBounded | src/lib/personalRecords.ts:109 | It lies in [0, 100] when a <= t |
| TrainingStats.RoundPercentEnds | src/lib/personalRecords.ts:109 | No active days give 0; all days active give 100 |
| TrainingStats.GetConsistencyScore | src/lib/personalRecords.ts:97-110 | `None` for `weeks == 0` (NaN), 0 for negative weeks, otherwise the rounded percentage of active days among the last `7 * weeks` days |
| TrainingStats.ConsistencyBounded | src/lib/personalRecords.ts:97-110 | For positive weeks the score lies in [0, 100], and it is 0 for an empty history |
| TrainingStats.EmptyHistoryInactive | src/lib/personalRecords.ts:106 | An empty history has no active days |

## Left out

- Persistence: the zustand `persist` middleware and its localStorage key are not modelled. The store starts empty.
- `Date.now()` in `genId`: ids are the counter values alone, so the timestamp prefix of the id string is not modelled.
- Real `Date` handling: `setDate` works in local time while `toISOString` is UTC. The model uses UTC days and weeks of exactly seven days, so the daylight-saving shifts of local weeks are not modelled.
- `getWeeklyActivity`'s `week` label is a `month/day` string. The model keeps the week's start instant instead, and this formatting is not modelled.
- The default arguments (`weeks = 12` and `weeks = 4`): the model takes `weeks` as an explicit parameter.
- Floating point: weights, reps and volumes are integers, and `Math.round` and `Math.floor` are exact. IEEE rounding error is not modelled.
- Non-integer weights and reps have no representation in the model.
- Case folding beyond ASCII: `toLowerCase` affects only `A`-`Z` here.
- Store.WorkoutStore.UpdateSet: a `Partial<WorkoutSet>` patch can set `restTime` and `notes` but cannot clear them back to absent, and a patch field explicitly set to `undefined` is not representable.
- Store.WorkoutStore.UpdateSet: keeps `Valid()` only for patches without an `id`; a patch that rewrites the set id may duplicate ids, as the source allows.
- The membership of each catalog entry's muscle group and equipment in their enumerations holds by typing: both fields have the enumeration datatypes.
- The subscriptions, `get`/`set` merging and re-rendering of zustand are not modelled; each action is a method on the store's fields.
- The cloud sync, the Supabase functions, the pages and components, the rest timer and `UserProfile` are outside the core.
