# Progressive-overload workout tracker — a Dafny model of its core

The application records strength-training sessions and prescribes the next
target for each exercise. This project models its logic core in Dafny and
proves properties of it.

- **Progression engine.** The rules that derive the next
  weight/sets/reps target from the last workout's normal sets:
  - linear progression aims at 3×12 with a 2.5 kg or 1.25 kg step, rounded to
    a quarter kilo;
  - double progression adds reps up to 10, then 1.25 kg;
  - the goal check on the first three sets;
  - the Epley one-rep-max estimate.
- **Session draft.** The per-exercise lists of draft sets that the user
  edits during a workout (`SessionState`).
- **Data accessors.** First-match lookups of programs and exercises, and
  the latest history entry of an exercise.
- **`WorkoutService`.**
  - Program and exercise commands.
  - Saving a workout, which retargets the active program's exercises and
    appends a session.
  - The read-only summary of a save.
  - Deleting a session, which recomputes targets from the remaining history.
  - The 1RM chart.
- **Two legacy `ProgressiveOverloadLogic` classes**, each in its own
  module. They use a different rule set:
  - 5×5, 3×6–10 and 3×8–12 plans starting at 20 kg;
  - the increment is taken from the first set;
  - 5×5 / 3×10 / 1×12 goal checks.

  The `src` variant is the one the `src` application runs. It commits the
  draft itself. It computes each new target on a copy of the exercise, so
  stored targets never change. It appends the sets to each exercise's own
  history.

Module layout:

| file | module | models |
|---|---|---|
| `wrappers.dfy` | `Wrappers` | `Option` |
| `search.dfy` | `Search` | generic first/last-match and filter helpers |
| `types.dfy` | `Types` | sets, exercises, programs, sessions, the app state |
| `drafts.dfy` | `Drafts` | the draft as an ordered id → sets association |
| `models.py` accessors | `Models` (`models.dfy`) | lookups over the app state |
| `progression.dfy`, `progression_lemmas.dfy` | `Progression`, `ProgressionLemmas` | the live engine and its properties |
| `session_state.dfy` | `SessionStates` | class `SessionState` |
| `service_rules.dfy`, `history_rules.dfy` | `ServiceRules`, `HistoryRules` | the service commands as functions on the state |
| `services.dfy` | `Services` | class `WorkoutService`, proved against those functions |
| `legacy_rules.dfy`, `legacy_data.dfy` | `LegacyRules`, `LegacyData` | the rule set and store commands common to both legacy classes |
| `legacy_app.dfy` | `LegacyApp` | `app/logic/progressive_overload_logic.py` |
| `legacy_src.dfy` | `LegacySrc` | `src/app/logic/progressive_overload_logic.py` |

Modelling choices:

- **Numbers.**
  - Weights are `real` and reps are `int`.
  - `round(x * 4) / 4` is modelled exactly, with Python's
    round-half-to-even (`Progression.RoundQuarter`).
  - Progression types are `Linear | Double | RepRange | Other`.
- **Parameters instead of clock or parsing.**
  - Ids and dates that the source reads from the clock are parameters.
  - The `float(...)`/`int(...)` conversions in the `src` save are parameters
    `parseWeight`/`parseReps`.
- **Raised exceptions.** Where the source raises and the exception escapes,
  the live model makes the raise an explicit outcome (`Raised`,
  `SummaryRaised`). This covers the double-progression target with a null
  weight. A key the source indexes directly becomes a precondition.
- **State.** Storage writes are no-ops on the model state. Each class keeps
  its state in fields that its methods reassign.

## Model

| member | source | states |
|---|---|---|
| Search.FilterAppend | app/logic/services.py:35 | filtering a concatenation filters each part in turn, and one element is kept iff it passes: the kept elements keep their order and number |
| Search.FilterHead | app/logic/services.py:35-37 | the filter is empty iff nothing passes, and otherwise starts with the first element that passes |
| Types.Working | app/logic/progression.py:9 | the normal sets are exactly the sets of type normal, none added; order and number are fixed by `WorkingAppend` |
| Types.WorkingAppend | app/logic/progression.py:9 | the normal sets of a concatenation are those of each part in turn, and one set is kept iff it is normal: order and multiplicity kept |
| Progression.RoundQuarter | app/logic/progression.py:66 | `round(v*4)/4` lies within 0.125 of `v` |
| Progression.RoundQuarterKeepsQuarters | app/logic/progression.py:128 | rounding a multiple of 0.25 leaves it unchanged |
| Progression.NextTarget | app/logic/progression.py:8-139 | the result is absent exactly for a type other than linear/double that has normal sets; every target has 3 sets (three weights within 1e-9 of each other count as one weight) |
| Progression.Epley | app/logic/progression.py:180-185 | a set's estimate is non-negative and at least its weight when reps ≥ 1 and weight > 0 |
| Progression.MaxEpley | app/logic/progression.py:168-190 | the maximum estimate: ≥ 0, ≥ every set's estimate, and either 0 or attained by a set |
| Progression.CalculateOneRepMax | app/logic/progression.py:168-190 | the running-max loop returns `MaxEpley` of the sets |
| ProgressionLemmas.NoSetsGiveDefault | app/logic/progression.py:9-22 | no workout or no normal sets: weight none, 3 sets, 12 reps for linear and 8 otherwise |
| ProgressionLemmas.OtherTypeFallsThrough | app/logic/progression.py:45-139 | an unknown type with normal sets yields no target |
| ProgressionLemmas.LinearFewSets | app/logic/progression.py:48-56 | fewer than three sets: 3×12 at the maximum weight, none when that is not positive |
| ProgressionLemmas.LinearUniformAdvance | app/logic/progression.py:58-66 | three sets of ≥12 reps at one weight w: weight `RoundQuarter(w + step)`, step 2.5 above 40 else 1.25, and above w |
| ProgressionLemmas.LinearUniformAdvanceOnGrid | app/logic/progression.py:63-66 | with w a multiple of 0.25 the new weight is exactly w + step |
| ProgressionLemmas.LinearMixedKeepsMax | app/logic/progression.py:63-69 | all ≥12 reps with two of the three weights at least 1e-9 apart: the new weight is the maximum of the three |
| ProgressionLemmas.LinearNearlyUniformAdvance | app/logic/progression.py:58-66 | all ≥12 reps with every two weights less than 1e-9 apart: the maximum weight is one of the three and advances by its step, rounded to 0.25 |
| ProgressionLemmas.LinearNearlyUniformExample | app/logic/progression.py:63 | 20 kg, 20.0000000005 kg, 20 kg at 12 reps count as one weight and give 21.25 kg×12 |
| ProgressionLemmas.LinearShortfall | app/logic/progression.py:74-88 | not all three reach 12: maximum weight over those that did (or over all three if none did), none when not positive |
| ProgressionLemmas.LinearIsThreeByTwelve | app/logic/progression.py:45-88 | every linear target with sets is 3 sets of 12 |
| ProgressionLemmas.DoubleBaselineFromTarget | app/logic/progression.py:95-97 | a stored target with a weight is the baseline weight and reps |
| ProgressionLemmas.DoubleBaselineFromEights | app/logic/progression.py:99-101 | without a target: baseline is the maximum weight among sets with ≥8 reps, reps 8 |
| ProgressionLemmas.DoubleBaselineFromTies | app/logic/progression.py:102-106 | no set reaches 8: the minimum weight among sets tied at the top rep count, reps 8 |
| ProgressionLemmas.DoubleRepeatsOnMiss | app/logic/progression.py:108-123 | fewer than three sets or one below the baseline: the target is the baseline |
| ProgressionLemmas.DoubleAddsWeight | app/logic/progression.py:125-129 | baseline met and all three ≥10 reps: weight + 1.25 rounded to 0.25, reps back to 8 |
| ProgressionLemmas.DoubleAddsRep | app/logic/progression.py:125-132 | baseline met and some set below 10: same weight, reps = minimum reps + 1 |
| ProgressionLemmas.DoubleNeverRegresses | app/logic/progression.py:108-139 | the double target never falls below the baseline: heavier, or same weight and at least as many reps |
| ProgressionLemmas.GoalOpenWithoutWeight | app/logic/progression.py:144-165 | no target, or a stored null weight (the conversion error), counts as achieved |
| ProgressionLemmas.GoalNeedsThreeSets | app/logic/progression.py:155-157 | fewer than three normal sets is not achieved |
| ProgressionLemmas.DoubleGoalMatchesEngine | app/logic/progression.py:90-165 | for double: an achieved goal moves the target up (weight, or reps at the same weight); a missed one repeats it |
| ProgressionLemmas.LinearGoalNeverLowers | app/logic/progression.py:45-88 | for linear: after an achieved goal the next weight is not below the target weight |
| ProgressionLemmas.MaxEpleyAppend | app/logic/progression.py:172-188 | the maximum over a concatenation is the larger of the two maxima |
| ProgressionLemmas.EpleyExamples | app/logic/progression.py:169-185 | 1 rep is the weight, 10 reps ×4/3, 0 reps or 0 kg give 0, an empty list gives 0 |
| ProgressionLemmas.LinearFirstWorkoutExample | app/logic/progression.py:12-16 | the first linear target is 3×12 with no weight |
| ProgressionLemmas.DoubleWeightStepExample | app/logic/progression.py:127-129 | 3×10 at 20 kg against 20 kg×8 gives 21.25 kg×8 |
| ProgressionLemmas.DoubleRepStepExample | app/logic/progression.py:130-132 | 3×9 at 20 kg against 20 kg×8 gives 20 kg×10 |
| Drafts.Put | app/logic/session_state.py:21-23 | the key maps to the new list, other keys keep theirs, a new key goes last |
| Drafts.Remove | app/logic/services.py:70-71 | the key is gone and every other key keeps its list |
| Drafts.Seed | app/logic/session_state.py:13-18 | exactly the given ids, each with an empty list |
| Drafts.WithoutSet | app/logic/session_state.py:30-33 | every set with that id removed, every other set kept; order and number are fixed by `WithoutSetAppend` |
| Drafts.WithoutSetAppend | app/logic/session_state.py:31-33 | removal from a concatenation removes from each part in turn, and one set stays iff its id differs: order and multiplicity kept |
| Drafts.SetField | app/logic/session_state.py:35-39 | the list keeps its length; which set and field change is stated by `SetFieldChangesOneField` |
| Drafts.SetFieldChangesOneField | app/logic/session_state.py:35-39 | only the named field of the first matching set changes; no match changes nothing |
| Drafts.SetErrorRecordsFlag | app/logic/session_state.py:41-47 | the first matching set records the flag for that field, nothing else changes |
| SessionStates.SessionState.constructor | app/logic/session_state.py:7-8 | the draft starts empty |
| SessionStates.SessionState.Reset | app/logic/session_state.py:10-11 | the draft is empty |
| SessionStates.SessionState.InitForIds | app/logic/session_state.py:14-18 | the keys are exactly the ids, each with an empty list |
| SessionStates.SessionState.InitForProgram | app/logic/session_state.py:13-18 | the keys are the program's exercise ids; an absent program gives an empty draft |
| SessionStates.SessionState.AddSet | app/logic/session_state.py:20-28 | exactly one blank normal set appended to that exercise, list created if missing, others unchanged |
| SessionStates.SessionState.DeleteSet | app/logic/session_state.py:30-33 | the exercise maps to its list without the set (empty if it was missing), others unchanged |
| SessionStates.SessionState.ScanForSet | app/logic/session_state.py:36-39 | the scan stops at the first set with the id |
| SessionStates.SessionState.UpdateSet | app/logic/session_state.py:35-39 | the named field of the first matching set is set; no such exercise or set changes nothing |
| SessionStates.SessionState.UpdateSetError | app/logic/session_state.py:41-47 | the flag is recorded on the first matching set; nothing else changes |
| SessionStates.SessionState.HasValidationErrors | app/logic/session_state.py:49-55 | true iff some draft set has a weight or reps error flag |
| SessionStates.RaisedFlagIsReported | app/logic/session_state.py:41-55 | after raising a flag on an existing set, the draft reports errors |
| SessionStates.SeedIsUnflagged | app/logic/session_state.py:13-18 | a freshly seeded draft has no errors |
| Models.ActiveIndex | app/logic/models.py:7-11 | none when the active id is falsy or matches no program; otherwise the first program with that id |
| Models.GetActiveProgram | app/logic/models.py:7-11 | the active program, or none when the id is falsy or absent |
| Models.GetProgramById | app/logic/models.py:14-15 | the first program with the id, none iff no program has it |
| Models.ActiveIsProgramById | app/logic/models.py:7-15 | for a truthy active id the two lookups agree |
| Models.ExerciseLocation | app/logic/models.py:18-23 | the first exercise with the id, scanning programs then exercises; none iff absent everywhere |
| Models.FindExerciseById | app/logic/models.py:18-23 | a copy of that exercise tagged with its program's id; none iff absent |
| Models.LastSessionWith | app/logic/models.py:25-33 | the last session containing the exercise; none iff no session does |
| Models.GetLastWorkoutForExercise | app/logic/models.py:25-33 | the exercise's entry from the latest session containing it; none iff none does |
| ServiceRules.CreateProgram | app/logic/services.py:17-29 | a name of at most 30 characters appends the program last and makes it active; a longer one changes nothing |
| ServiceRules.CreatedProgramIsActive | app/logic/services.py:25-27 | with a fresh non-zero id the new program is the active program |
| ServiceRules.WithoutProgram | app/logic/services.py:35 | every program with the id removed, all others kept; order and number are fixed by `WithoutProgramAppend` |
| ServiceRules.WithoutProgramAppend | app/logic/services.py:35 | removal from a concatenation removes from each part in turn, and one program stays iff its id differs: order and multiplicity kept |
| ServiceRules.WithoutExerciseAppend | app/logic/services.py:69 | the same for the exercises of the active program |
| ServiceRules.DeleteProgram | app/logic/services.py:31-40 | refused iff at most one program; otherwise the programs are `WithoutProgram`, and the active id, only if it was the deleted one, moves to the first program in the original order whose id differs, or to none |
| ServiceRules.DeletedActiveHandsOver | app/logic/services.py:35-37 | deleting the active program makes the first remaining program active, and that program is the first one in the original order whose id differs |
| ServiceRules.SelectProgram | app/logic/services.py:42-46 | only the active id changes |
| ServiceRules.AddExercise | app/logic/services.py:48-62 | no active program: nothing changes; otherwise one exercise appended to the active program |
| ServiceRules.AddedExerciseHasNoTarget | app/logic/services.py:53-59 | the added exercise comes last with no target; other programs unchanged |
| ServiceRules.DeleteExercise | app/logic/services.py:64-72 | no active program: nothing changes; otherwise the exercise leaves the active program |
| ServiceRules.DeletedExerciseIsGone | app/logic/services.py:69 | no exercise with the id remains, every other one stays, other programs unchanged |
| ServiceRules.AfterLoad | app/logic/logic.py:17-19 | once set up, a falsy active id becomes the first program's id; otherwise nothing changes |
| ServiceRules.ApplyItem | app/logic/services.py:101-125 | only the first exercise with the item's id may change; it changes to the engine's next target iff the item has normal sets and it is a first workout or an achieved goal, and otherwise the list is unchanged; raises exactly on a double target with a null weight |
| ServiceRules.ApplyItems | app/logic/services.py:101-125 | ids and names kept; exercises no item names are unchanged |
| ServiceRules.RaisedIsFinal | app/logic/services.py:101-125 | once an item raises, later items change nothing |
| ServiceRules.SessionRecord | app/logic/services.py:127-139 | one record per item in order, with the active program's id and name |
| ServiceRules.SaveWorkout | app/logic/services.py:95-143 | no active program: nothing changes; otherwise the outcome is `Raised` iff the item loop raises, the active program holds the loop's exercises either way, and one session is appended unless it raised; other programs unchanged |
| ServiceRules.SaveKeepsActiveProgram | app/logic/services.py:95-143 | the active program keeps its id, name, type and exercise ids |
| ServiceRules.AddPreview | app/logic/services.py:180-199 | a raise is final, a skip changes nothing, a shown line is appended and a failure clears the flag |
| ServiceRules.Summarize | app/logic/services.py:145-201 | `all_goals_achieved` is false iff some detail is a failure; at most one detail per item |
| ServiceRules.SummaryRaisedIsFinal | app/logic/services.py:145-201 | once an item raises, the summary raises |
| ServiceRules.PreviewMatchesCommit | app/logic/services.py:97-125 | one item's step: for an item of the active program the previewed target is the one that item's update stores, and a failure stores nothing |
| ServiceRules.SummaryMatchesSave | app/logic/services.py:97-201 | saving the whole list the summary previewed stores, for each shown item, the target it showed (items of the active program, distinct exercises, a save that does not raise) |
| ServiceRules.SummaryCleanMeansCommitClean | app/logic/services.py:145-201 | a summary that does not raise means the save does not raise, for distinct items of the active program |
| ServiceRules.SameSlotSameRaise | app/logic/services.py:101-125 | whether an item raises on save depends only on the exercise it names |
| HistoryRules.WithoutSession | app/logic/services.py:211 | every session with the id removed, all others kept; order and number are fixed by `WithoutSessionAppend` |
| HistoryRules.WithoutSessionAppend | app/logic/services.py:211 | removal from a concatenation removes from each part in turn, and one session stays iff its id differs: order and multiplicity kept |
| HistoryRules.SessionIndex | app/logic/services.py:207-209 | the first session with the id; none iff none has it |
| HistoryRules.RetargetAll | app/logic/services.py:218-240 | every exercise gets the engine's target computed with the target cleared and its latest remaining sets |
| HistoryRules.DeleteHistorySession | app/logic/services.py:203-242 | an unknown id changes nothing; otherwise the session goes and only the active program's targets are recomputed |
| HistoryRules.DeletedHistoryRecomputes | app/logic/services.py:218-240 | each active-program exercise keeps id and name and gets `NextTarget(None, latest sets, type)` |
| HistoryRules.DeletedUnrecordedGetsDefault | app/logic/services.py:221-240 | an exercise in no remaining session gets the default target with a null weight |
| HistoryRules.DeletedDoubleKeepsWeight | app/logic/services.py:221-240 | a double exercise with remaining normal sets gets a target with a weight |
| HistoryRules.PointsIn | app/logic/services.py:252-257 | at most one point per entry, each dated with the session; none iff no entry is of the exercise |
| HistoryRules.Collected | app/logic/services.py:250-258 | empty iff no session contains the exercise |
| HistoryRules.SortByDate | app/logic/services.py:261 | a permutation of the points |
| HistoryRules.SortByDateSorts | app/logic/services.py:261 | the result is in ascending date order |
| HistoryRules.SortByDateKeepsSorted | app/logic/services.py:261 | already sorted points are left as they are |
| HistoryRules.ChartData | app/logic/services.py:248-267 | none iff no session contains the exercise; otherwise equal-length labels and 1RM values of the sorted points |
| HistoryRules.ChartIsOrdered | app/logic/services.py:261-266 | labels ascend by date and every value is ≥ 0 |
| Services.WorkoutService.constructor | app/logic/services.py:12-14 | the service holds the given state and draft |
| Services.WorkoutService.CreateNewProgram | app/logic/services.py:17-29 | state as `CreateProgram`; the draft is emptied only when the name is accepted |
| Services.WorkoutService.DeleteProgram | app/logic/services.py:31-40 | result and state as `DeleteProgram`; the draft is reseeded from the active program on success |
| Services.WorkoutService.SelectProgram | app/logic/services.py:42-46 | state as `SelectProgram`; the draft is reseeded |
| Services.WorkoutService.AddExerciseToActiveProgram | app/logic/services.py:48-62 | state as `AddExercise`; the draft gains an empty list for a new id |
| Services.WorkoutService.DeleteExerciseFromActive | app/logic/services.py:64-72 | state as `DeleteExercise`; the exercise leaves the draft |
| Services.WorkoutService.InitCurrentWorkout | app/logic/services.py:75-77 | the draft is seeded from the active program |
| Services.WorkoutService.AddSetToWorkout | app/logic/services.py:79-80 | delegates to the draft's add |
| Services.WorkoutService.DeleteSetFromWorkout | app/logic/services.py:82-83 | delegates to the draft's delete |
| Services.WorkoutService.UpdateSetInWorkout | app/logic/services.py:85-86 | delegates to the draft's update |
| Services.WorkoutService.UpdateSetErrorState | app/logic/services.py:88-89 | delegates to the draft's error update |
| Services.WorkoutService.HasValidationErrors | app/logic/services.py:91-92 | true iff some draft set is flagged |
| Services.WorkoutService.SaveWorkout | app/logic/services.py:95-143 | state and outcome as `SaveWorkout`; the draft is reseeded only after a save |
| Services.WorkoutService.TargetLoop | app/logic/services.py:101-125 | the item loop yields `ApplyItems`: targets updated in order, stopping at the first raise |
| Services.WorkoutService.GenerateWorkoutSummary | app/logic/services.py:145-201 | equals `Summarize` and changes nothing |
| Services.WorkoutService.SummaryLoop | app/logic/services.py:150-201 | the item loop yields `Summarize` against the loaded state |
| Services.WorkoutService.SummaryItem | app/logic/services.py:151-199 | one item skips, raises, or extends the summary exactly as `Summarize` does one item further |
| Services.WorkoutService.DeleteHistorySession | app/logic/services.py:203-242 | state as `HistoryRules.DeleteHistorySession` |
| Services.WorkoutService.RetargetLoop | app/logic/services.py:218-240 | each exercise's target recomputed from the remaining history, as `RetargetAll` |
| HistoryRules.CollectPoints | app/logic/services.py:250-257 | the nested loop collects `Collected` |
| HistoryRules.SessionPoints | app/logic/services.py:252-257 | the inner loop collects `PointsIn` for one session |
| Services.WorkoutService.OneRepMaxes | app/logic/services.py:263-266 | one 1RM per record's list of normal sets, in order |
| Services.WorkoutService.GetProgressChartData | app/logic/services.py:248-267 | equals `ChartData` |
| Services.WorkoutService.ResetAllData | app/logic/services.py:270-278 | the default empty state and an empty draft |
| LegacyRules.NextTarget | src/app/logic/progressive_overload_logic.py:299-329 | the plan text matches the sets and reps; 5 sets for linear, 3 otherwise |
| LegacyRules.NoSetsStartAtTwenty | src/app/logic/progressive_overload_logic.py:304-318 | no normal sets: 20 kg, reps 5 (linear), 8–12 (rep range) or 6 |
| LegacyRules.AdvancesPastFirstSet | src/app/logic/progressive_overload_logic.py:320-329 | with sets: the first set's weight plus 2.5 (above 40) or 1.25, rounded to 0.25; exact on the quarter grid |
| LegacyRules.UnknownTypeSwitchesPlan | src/app/logic/progressive_overload_logic.py:312-329 | an unknown type starts on 3×6–10 and then moves to the 3×8–12 row |
| LegacyRules.AchievedGoalRaisesWeight | src/app/logic/progressive_overload_logic.py:331-358 | a met goal for a known type yields a heavier next target |
| LegacyRules.MaxEstimate | src/app/logic/progressive_overload_logic.py:360-382 | ≥ 0, ≥ every set's estimate, 0 or attained |
| LegacyRules.CalculateOneRepMax | src/app/logic/progressive_overload_logic.py:360-382 | the running-max loop returns `MaxEstimate` |
| LegacyRules.EstimateVersusEpley | app/logic/progressive_overload_logic.py:205-223 | the legacy per-set estimate agrees with the live one wherever the live one is positive |
| LegacyRules.MaxEstimateIsMaxEpley | app/logic/progressive_overload_logic.py:205-223 | over any sets the legacy and live 1RM maxima are equal |
| LegacyRules.Judge | src/app/logic/progressive_overload_logic.py:268-290 | first workout iff no target; failure iff a target whose goal is missed; shows the next target, or the kept one on failure |
| LegacyRules.Retarget | app/logic/progressive_overload_logic.py:241-251 | always a target; a missed goal keeps the stored one |
| LegacyRules.JudgeShowsRetarget | app/logic/progressive_overload_logic.py:241-251 | the target the summary shows is the one the commit stores |
| LegacyRules.Details | src/app/logic/progressive_overload_logic.py:255-291 | every shown line comes from an item, and every item that shows a line is included; order and number are fixed by `DetailsAppend` |
| LegacyRules.DetailsAppend | src/app/logic/progressive_overload_logic.py:255-291 | the lines of a concatenation are those of each part in turn, and one item gives a line iff it has one |
| LegacyRules.Summarized | src/app/logic/progressive_overload_logic.py:293-296 | `all_goals_achieved` is false iff some detail is a failure |
| LegacyRules.Tally | src/app/logic/progressive_overload_logic.py:252-296 | the summary loop builds `Summarized` |
| LegacyRules.OneRepMaxes | src/app/logic/progressive_overload_logic.py:425-428 | one legacy 1RM per record's list of normal sets, in order |
| LegacyData.ActiveIndex | src/app/logic/progressive_overload_logic.py:434-440 | none for a falsy or unknown active id; otherwise the first matching program |
| LegacyData.ProgramIndex | src/app/logic/progressive_overload_logic.py:453-457 | the first program with the id; none iff absent |
| LegacyData.ExerciseLocation | src/app/logic/progressive_overload_logic.py:442-451 | the first exercise with the id across programs; none iff absent |
| LegacyData.SeedIds | src/app/logic/progressive_overload_logic.py:137-145 | the active program's exercise ids in order, or none |
| LegacyData.AfterLoad | src/app/logic/progressive_overload_logic.py:47-50 | once set up, a falsy active id becomes the first program's id; nothing else changes |
| LegacyData.AppendProgram | src/app/logic/progressive_overload_logic.py:66-80 | the program is appended last and made active |
| LegacyData.AppendedProgramIsActive | src/app/logic/progressive_overload_logic.py:76-79 | the new program is the active one and seeds an empty draft |
| LegacyData.DeleteProgram | src/app/logic/progressive_overload_logic.py:82-96 | refused iff at most one program; otherwise the programs are `WithoutProgram`, and the active id, only if it was the deleted one, moves to the first program in the original order whose id differs, or to none |
| LegacyData.WithoutProgramAppend | src/app/logic/progressive_overload_logic.py:90 | removal from a concatenation removes from each part in turn, and one program stays iff its id differs |
| LegacyData.WithoutExerciseAppend | src/app/logic/progressive_overload_logic.py:130 | the same for the exercises of the active program |
| LegacyData.DeletingAbsentProgramSucceeds | src/app/logic/progressive_overload_logic.py:82-96 | an absent id still reports success, keeps the programs, and a dangling active id equal to it moves to the first program |
| LegacyData.SelectProgram | src/app/logic/progressive_overload_logic.py:98-104 | only the active id changes |
| LegacyData.AddExercise | src/app/logic/progressive_overload_logic.py:106-122 | no active program: nothing changes; otherwise an exercise with empty history and no target is appended |
| LegacyData.DeleteExercise | src/app/logic/progressive_overload_logic.py:124-133 | no active program: nothing changes; otherwise the exercise leaves the active program |
| LegacyData.WithoutDate | src/app/logic/progressive_overload_logic.py:406-408 | every history entry with the date removed, all others kept; order and number are fixed by `WithoutDateAppend` |
| LegacyData.WithoutDateAppend | src/app/logic/progressive_overload_logic.py:406-408 | removal from a concatenation removes from each part in turn, and one entry stays iff its date differs |
| LegacyData.Pruned | src/app/logic/progressive_overload_logic.py:399-408 | an exercise in the session loses its entries of that date; others are untouched; targets never change |
| LegacyData.PrunedProgram | src/app/logic/progressive_overload_logic.py:398-408 | every exercise of the program pruned, program fields kept |
| LegacyData.PruneHistories | src/app/logic/progressive_overload_logic.py:398-408 | the nested loop prunes every program |
| LegacyData.DeleteHistorySession | src/app/logic/progressive_overload_logic.py:386-411 | an unknown id changes nothing; otherwise the session goes and every program is pruned |
| LegacyData.DeletedSessionKeepsTargets | app/logic/progressive_overload_logic.py:338-352 | deleting keeps every target and id and never lengthens a history; no session with the id remains |
| LegacyData.SameDateEntriesGoToo | src/app/logic/progressive_overload_logic.py:401-408 | any entry of a session exercise with the session's date is removed, even from another session |
| LegacyApp.CreateProgram | app/logic/progressive_overload_logic.py:59-70 | a name of at most 30 characters is appended and made active; a longer one changes nothing |
| LegacyApp.ApplyItem | app/logic/progressive_overload_logic.py:231-251 | only the first exercise with the item's id may change, to `Retarget`; ids, names and histories kept |
| LegacyApp.ApplyItems | app/logic/progressive_overload_logic.py:231-251 | ids, names and histories kept; a target is never dropped; untouched exercises unchanged |
| LegacyApp.Records | app/logic/progressive_overload_logic.py:262-269 | one record per item in order |
| LegacyApp.Saved | app/logic/progressive_overload_logic.py:225-273 | no active program: nothing changes; otherwise only the active program is retargeted and one session appended |
| LegacyApp.Preview | app/logic/progressive_overload_logic.py:281-298 | a line is shown iff the item has normal sets and its program and exercise are found |
| LegacyApp.Summarize | app/logic/progressive_overload_logic.py:275-336 | `all_goals_achieved` is false iff some detail failed; the details are `Details` of the items' previews in item order, every item with a line shows it, and every line comes from an item |
| LegacyApp.PreviewMatchesCommit | app/logic/progressive_overload_logic.py:241-251 | for an item of the active program the previewed target is the one saving that item alone stores |
| LegacyApp.SummaryMatchesSave | app/logic/progressive_overload_logic.py:225-336 | saving the whole list the summary previewed stores, for each shown item, the target it showed (items of the active program, distinct exercises) |
| LegacyApp.SaveStoresFirstTarget | app/logic/progressive_overload_logic.py:243-245 | an exercise without a target gets the next target of its first workout |
| LegacyApp.ChartData | app/logic/progressive_overload_logic.py:354-373 | none iff no session has the exercise; otherwise labels and legacy 1RMs of the date-sorted points |
| LegacyApp.ChartMatchesLive | app/logic/progressive_overload_logic.py:354-373 | the legacy chart equals the live service's chart over the same history |
| LegacyApp.ProgressiveOverloadLogic.constructor | app/logic/progressive_overload_logic.py:8-32 | the post-load rule, and a draft seeded from the active program |
| LegacyApp.ProgressiveOverloadLogic.InitCurrentWorkout | app/logic/progressive_overload_logic.py:111-116 | the draft is seeded from the active program |
| LegacyApp.ProgressiveOverloadLogic.CreateNewProgram | app/logic/progressive_overload_logic.py:59-70 | state as `CreateProgram`; reseeded only when accepted |
| LegacyApp.ProgressiveOverloadLogic.DeleteProgram | app/logic/progressive_overload_logic.py:72-80 | result and state as `LegacyData.DeleteProgram`; reseeded on success |
| LegacyApp.ProgressiveOverloadLogic.SelectProgram | app/logic/progressive_overload_logic.py:82-85 | only the active id changes; reseeded |
| LegacyApp.ProgressiveOverloadLogic.AddExerciseToProgram | app/logic/progressive_overload_logic.py:87-100 | state as `AddExercise`; the draft gains an empty list for a new id |
| LegacyApp.ProgressiveOverloadLogic.DeleteExercise | app/logic/progressive_overload_logic.py:102-109 | state as `LegacyData.DeleteExercise`; the exercise leaves the draft |
| LegacyApp.ProgressiveOverloadLogic.AddSetToWorkout | app/logic/progressive_overload_logic.py:118-128 | one blank normal set appended, list created if missing |
| LegacyApp.ProgressiveOverloadLogic.DeleteSetFromWorkout | app/logic/progressive_overload_logic.py:130-133 | the sets with the id removed |
| LegacyApp.ProgressiveOverloadLogic.UpdateSetInWorkout | app/logic/progressive_overload_logic.py:135-139 | the first matching set's field changes, nothing else |
| LegacyApp.ProgressiveOverloadLogic.UpdateSetErrorState | app/logic/progressive_overload_logic.py:141-147 | the flag is recorded on the first matching set |
| LegacyApp.ProgressiveOverloadLogic.HasValidationErrors | app/logic/progressive_overload_logic.py:149-155 | true iff some draft set is flagged |
| LegacyApp.ProgressiveOverloadLogic.SaveWorkout | app/logic/progressive_overload_logic.py:225-273 | state as `Saved`; the draft is reseeded when there is an active program |
| LegacyApp.ProgressiveOverloadLogic.TargetLoop | app/logic/progressive_overload_logic.py:230-260 | the item loop yields `ApplyItems`, targets updated in order |
| LegacyApp.ProgressiveOverloadLogic.RecordsOf | app/logic/progressive_overload_logic.py:262-269 | one history record per item, in order, as `Records` |
| LegacyApp.ProgressiveOverloadLogic.GenerateWorkoutSummary | app/logic/progressive_overload_logic.py:275-336 | equals `Summarize` and changes nothing |
| LegacyApp.ProgressiveOverloadLogic.DeleteHistorySession | app/logic/progressive_overload_logic.py:338-352 | state as `LegacyData.DeleteHistorySession` |
| LegacyApp.ProgressiveOverloadLogic.GetProgressChartData | app/logic/progressive_overload_logic.py:354-373 | equals `ChartData` |
| LegacyApp.ProgressiveOverloadLogic.ResetAllData | app/logic/progressive_overload_logic.py:375-383 | the empty state and an empty draft |
| LegacySrc.Committed | src/app/logic/progressive_overload_logic.py:204-213 | a set is committed iff both fields are non-blank and parse; then it carries the parsed numbers |
| LegacySrc.ToSave | src/app/logic/progressive_overload_logic.py:203-213 | empty iff no set commits; each saved set comes from a committed draft set; order and number are fixed by `ToSaveAppend` |
| LegacySrc.ToSaveKeepsCommitted | src/app/logic/progressive_overload_logic.py:203-213 | every draft set that commits is saved |
| LegacySrc.ToSaveAppend | src/app/logic/progressive_overload_logic.py:203-213 | the saved sets of a concatenation are those of each part in turn, and one set is saved iff it commits |
| LegacySrc.GatherEntry | src/app/logic/progressive_overload_logic.py:198-233 | an entry either changes nothing or adds exactly one item and one record, from a copy of the stored exercise, with its committed sets; only histories grow |
| LegacySrc.GatherEntryEffect | src/app/logic/progressive_overload_logic.py:198-221 | an entry is recorded iff its exercise is found by id and some set commits; then exactly the found exercise gains one history entry with the date and the committed sets |
| LegacySrc.SameIdsSameLocation | src/app/logic/progressive_overload_logic.py:442-451 | the exercise lookup depends only on ids, not on histories |
| LegacySrc.GatherRecordsNothing | src/app/logic/progressive_overload_logic.py:198-233 | the commit loop records nothing iff no entry is found with a committed set |
| LegacySrc.Gather | src/app/logic/progressive_overload_logic.py:198-233 | over the draft: histories only grow, nothing changes without a record, item n is a copy of a stored exercise recorded as record n |
| LegacySrc.Preview | src/app/logic/progressive_overload_logic.py:256-291 | a line iff the item has normal sets; the verdict is on the copy's target and the program's type |
| LegacySrc.Summarize | src/app/logic/progressive_overload_logic.py:247-296 | `all_goals_achieved` is false iff some detail failed; the details are `Details` of the items' previews in item order, every item with a line shows it, and every line comes from an item |
| LegacySrc.Saved | src/app/logic/progressive_overload_logic.py:180-243 | none and no change iff there is no active program or no draft entry is found with a committed set; otherwise one session appended with the records and the summary returned; targets and places never change |
| LegacySrc.UntargetedStoreAlwaysStarts | src/app/logic/progressive_overload_logic.py:200-283 | a store with no targets keeps none, and every summary shows only first workouts with all goals achieved |
| LegacySrc.SavedSetsJoinHistory | src/app/logic/progressive_overload_logic.py:215-221 | a found exercise with committed sets gets exactly one new history entry, dated with the session |
| LegacySrc.ChartData | src/app/logic/progressive_overload_logic.py:415-430 | none iff the exercise is missing or has no history; otherwise one label and legacy 1RM per history entry in stored order |
| LegacySrc.ProgressiveOverloadLogic.constructor | src/app/logic/progressive_overload_logic.py:12-51 | the post-load rule; the draft is seeded only once set up |
| LegacySrc.ProgressiveOverloadLogic.InitCurrentWorkout | src/app/logic/progressive_overload_logic.py:137-145 | the draft is seeded from the active program |
| LegacySrc.ProgressiveOverloadLogic.CreateNewProgram | src/app/logic/progressive_overload_logic.py:66-80 | appended and made active whatever the name's length; reseeded |
| LegacySrc.ProgressiveOverloadLogic.DeleteProgram | src/app/logic/progressive_overload_logic.py:82-96 | result and state as `LegacyData.DeleteProgram`; reseeded on success |
| LegacySrc.ProgressiveOverloadLogic.SelectProgram | src/app/logic/progressive_overload_logic.py:98-104 | only the active id changes; reseeded |
| LegacySrc.ProgressiveOverloadLogic.AddExerciseToProgram | src/app/logic/progressive_overload_logic.py:106-122 | state as `AddExercise`; the draft gains an empty list for a new id |
| LegacySrc.ProgressiveOverloadLogic.DeleteExercise | src/app/logic/progressive_overload_logic.py:124-133 | state as `LegacyData.DeleteExercise`; the exercise leaves the draft |
| LegacySrc.ProgressiveOverloadLogic.AddSetToWorkout | src/app/logic/progressive_overload_logic.py:148-161 | one blank normal set appended, list created if missing |
| LegacySrc.ProgressiveOverloadLogic.DeleteSetFromWorkout | src/app/logic/progressive_overload_logic.py:163-169 | the exercise must be in the draft; the sets with the id removed |
| LegacySrc.ProgressiveOverloadLogic.UpdateSetInWorkout | src/app/logic/progressive_overload_logic.py:171-178 | the exercise must be in the draft; the first matching set's field changes |
| LegacySrc.ProgressiveOverloadLogic.Commit | src/app/logic/progressive_overload_logic.py:198-233 | the commit loop computes `Gather` |
| LegacySrc.ProgressiveOverloadLogic.SaveWorkout | src/app/logic/progressive_overload_logic.py:180-243 | state and result as `Saved`; the draft is reseeded only on a save |
| LegacySrc.ProgressiveOverloadLogic.GenerateWorkoutSummary | src/app/logic/progressive_overload_logic.py:247-296 | equals `Summarize` |
| LegacySrc.ProgressiveOverloadLogic.DeleteHistorySession | src/app/logic/progressive_overload_logic.py:386-411 | state as `LegacyData.DeleteHistorySession` |
| LegacySrc.ProgressiveOverloadLogic.GetProgressChartData | src/app/logic/progressive_overload_logic.py:415-430 | equals `ChartData` |
| LegacySrc.ProgressiveOverloadLogic.ResetAllData | src/app/logic/progressive_overload_logic.py:459-471 | the empty state and an empty draft |

## Left out

- JSON file storage (`storage.py`, `load_data`/`save_data`), with its swallowed I/O errors. Every save is a no-op on the model state, and a load is the state passed to a constructor.
- Clock readings (`int(time.time() * 1000)` ids, `datetime.now()` dates). They are parameters; the model assumes nothing about their uniqueness.
- `float(...)`/`int(...)` parsing of draft strings in the `src` save. It is the pair of parameters `parseWeight`/`parseReps`. `int(float(...))` truncation elsewhere is not modelled, because committed sets are already typed.
- Conversion-error paths on malformed stored data (`except (ValueError, TypeError, KeyError)`) are unreachable with typed sets. The live goal check's one reachable case, a stored null weight, is modelled as fail-open.
- Progression.NextTarget: the double branch requires a stored target to have a weight. `float(None)` raises there; the service models that raise as `Raised`/`SummaryRaised`.
- Progression.NextTarget: the `else 20.0` fallback for an empty tie list is unreachable (there is always a set at the maximum rep count), so it is not modelled.
- The debug `print` after `delete_history_session` in the live service, and its possible unbound-variable error. All `print` output in the legacy classes is left out too.
- Russian display strings and f-string texts. Plans are the enumerations `PlanText`/`ThreeByReps`; messages are reduced to the outcome.
- The Kivy screens and app shells, and the UI's validation ranges.
- `app/logic/logic.py` delegation: only its post-load rule is modelled (`ServiceRules.AfterLoad`). `storage.py` is not part of this model.
- LegacySrc.ProgressiveOverloadLogic.UpdateSetInWorkout: only the `weight` and `reps` fields can be written. The source writes any key.
- LegacySrc.ProgressiveOverloadLogic.DeleteSetFromWorkout: the `KeyError` on an exercise absent from the draft is a precondition, not a modelled failure. The same holds for `UpdateSetInWorkout`.
- LegacySrc.KindFor: the summary's fallback to the active program when the item's program is gone is modelled. The `AttributeError` when neither exists is a precondition; items produced by the save never reach it.
- Search.Filter: its ensures state membership and length only; order and multiplicity are stated by `Search.FilterAppend`, and the first kept element by `Search.FilterHead`.
- Types.Working: its ensures state membership only; order and multiplicity are stated by `Types.WorkingAppend`.
- Drafts.WithoutSet: its ensures state membership only; order and multiplicity are stated by `Drafts.WithoutSetAppend`.
- ServiceRules.WithoutProgram: its ensures state membership only; order and multiplicity are stated by `ServiceRules.WithoutProgramAppend`.
- HistoryRules.WithoutSession: its ensures state membership only; order and multiplicity are stated by `HistoryRules.WithoutSessionAppend`.
- LegacyData.WithoutDate: its ensures state membership only; order and multiplicity are stated by `LegacyData.WithoutDateAppend`.
- LegacyRules.Details: its ensures state membership only; order and multiplicity are stated by `LegacyRules.DetailsAppend`.
- LegacySrc.GatherEntry: its ensures do not say when an entry is recorded or which history grows; `LegacySrc.GatherEntryEffect` states both.
- LegacySrc.ToSave: its ensures state membership only; order and multiplicity are stated by `LegacySrc.ToSaveAppend`, and that every committed set is kept by `LegacySrc.ToSaveKeepsCommitted`.
- SessionStates.SessionState.UpdateSet: only the `weight` and `reps` fields (the `Field` enumeration) can be written; the source writes any key, but the workout screen passes only these two.
- SessionStates.SessionState.UpdateSetError: the error flag is keyed by the `Field` enumeration, so only `weight` and `reps` errors exist; the source accepts any key.
- LegacyApp.ProgressiveOverloadLogic.UpdateSetInWorkout: only the `weight` and `reps` fields can be written. The source writes any key.
- LegacyApp.ProgressiveOverloadLogic.UpdateSetErrorState: the error flag is keyed by the `Field` enumeration. The source accepts any key.
- ServiceRules.SummaryMatchesSave: requires the items to name distinct exercises. With a repeated exercise the save judges the later item against the target the earlier one just stored, while the summary judges both against the stored target, so the two can differ.
- LegacyApp.SummaryMatchesSave: requires distinct exercises, for the same reason: the save retargets a repeated exercise twice in a row, the summary judges each item against the stored target.
- HistoryRules.SortByDate: proved sorted and a permutation. That it keeps equal dates in their original order (Python's stable sort) is not stated.
- Both legacy classes model `progressionType` strings as the same enumeration as the live engine, with `RepRange` for `"rep_range"`.
- The legacy classes' dictionary-valued targets are the record `LegacyTarget`. The `lastHistory` field of the `src` summary items is unused by the source and is not modelled.
