/**
 * The state transitions of `WorkoutService` over the in-memory application
 * state: program and exercise editing, committing a workout (target updates
 * plus one history entry), and the read-only workout summary that previews
 * what a commit would store.
 */
module ServiceRules {
  import opened Wrappers
  import opened Types
  import opened Search
  import opened Models
  import opened Progression

  /** The longest program name `create_new_program` accepts. */
  const MaxProgramName := 30

  // ---------------------------------------------------------------------------
  // Programs and exercises

  /** `create_new_program`, with `newId` for the clock-derived id. */
  function CreateProgram(s: AppState, name: string, kind: ProgressionType, newId: Id): (r: AppState)
    ensures |name| > MaxProgramName ==> r == s
    ensures |name| <= MaxProgramName ==>
              r.programs == s.programs + [Program(newId, name, kind, [])] &&
              r.activeProgramId == Some(newId) &&
              r.workoutHistory == s.workoutHistory && r.userSetupComplete == s.userSetupComplete
  {
    if |name| <= MaxProgramName then
      s.(programs := s.programs + [Program(newId, name, kind, [])], activeProgramId := Some(newId))
    else s
  }

  /** A fresh, non-zero id makes the new program the active one. */
  lemma CreatedProgramIsActive(s: AppState, name: string, kind: ProgressionType, newId: Id)
    requires |name| <= MaxProgramName && newId != 0
    requires forall i :: 0 <= i < |s.programs| ==> s.programs[i].id != newId
    ensures GetActiveProgram(CreateProgram(s, name, kind, newId)) == Some(Program(newId, name, kind, []))
  {
    var r := CreateProgram(s, name, kind, newId);
    assert r.programs[|s.programs|].id == newId;
  }

  /** The programs whose id differs from `pid`, in order. */
  function WithoutProgram(programs: seq<Program>, pid: Id): (r: seq<Program>)
    ensures |r| <= |programs|
    ensures forall i :: 0 <= i < |r| ==> r[i] in programs && r[i].id != pid
    ensures forall i :: 0 <= i < |programs| && programs[i].id != pid ==> programs[i] in r
  {
    Filter(programs, (p: Program) => p.id != pid)
  }

  /** Removing a program id from a concatenation removes it from each part in turn; one program stays exactly when its id differs. */
  lemma WithoutProgramAppend(a: seq<Program>, b: seq<Program>, pid: Id)
    ensures WithoutProgram(a + b, pid) == WithoutProgram(a, pid) + WithoutProgram(b, pid)
    ensures forall x :: WithoutProgram([x], pid) == if x.id != pid then [x] else []
  {
    FilterAppend(a, b, (p: Program) => p.id != pid);
  }

  /**
   * `delete_program`: refused with at most one program; otherwise every
   * program with that id goes, and a deleted active program hands over to
   * the first remaining one (or to none).
   */
  function DeleteProgram(s: AppState, pid: Id): (r: (bool, AppState))
    ensures !r.0 <==> |s.programs| <= 1
    ensures !r.0 ==> r.1 == s
    ensures r.0 ==> r.1.workoutHistory == s.workoutHistory && r.1.userSetupComplete == s.userSetupComplete
    ensures r.0 ==> forall i :: 0 <= i < |r.1.programs| ==> r.1.programs[i].id != pid
    ensures r.0 ==> forall i :: 0 <= i < |s.programs| && s.programs[i].id != pid ==> s.programs[i] in r.1.programs
    ensures r.0 && s.activeProgramId != Some(pid) ==> r.1.activeProgramId == s.activeProgramId
    ensures r.0 && s.activeProgramId == Some(pid) ==>
              r.1.activeProgramId == (if |r.1.programs| > 0 then Some(r.1.programs[0].id) else None)
    ensures r.0 ==> r.1.programs == WithoutProgram(s.programs, pid)
    ensures r.0 && s.activeProgramId == Some(pid) ==>
              var m := FirstIndex(s.programs, (p: Program) => p.id != pid);
              r.1.activeProgramId == if m.Some? then Some(s.programs[m.value].id) else None
  {
    if |s.programs| <= 1 then (false, s)
    else
      FilterHead(s.programs, (p: Program) => p.id != pid);
      var remaining := WithoutProgram(s.programs, pid);
      var active := if s.activeProgramId == Some(pid) then
                      (if |remaining| > 0 then Some(remaining[0].id) else None)
                    else s.activeProgramId;
      (true, s.(programs := remaining, activeProgramId := active))
  }

  /**
   * Deleting the active program makes the first remaining program active:
   * the first program, in the original order, whose id differs from the deleted one.
   */
  lemma DeletedActiveHandsOver(s: AppState, pid: Id)
    requires |s.programs| > 1 && s.activeProgramId == Some(pid)
    requires exists i :: 0 <= i < |s.programs| && s.programs[i].id != pid && s.programs[i].id != 0
    ensures var r := DeleteProgram(s, pid).1;
            |r.programs| > 0 &&
            (r.programs[0].id != 0 ==> GetActiveProgram(r) == Some(r.programs[0]))
    ensures var m := FirstIndex(s.programs, (p: Program) => p.id != pid);
            m.Some? && DeleteProgram(s, pid).1.programs[0] == s.programs[m.value]
  {
    var i :| 0 <= i < |s.programs| && s.programs[i].id != pid && s.programs[i].id != 0;
    assert s.programs[i] in DeleteProgram(s, pid).1.programs;
    FilterHead(s.programs, (p: Program) => p.id != pid);
  }

  /** `select_program`. */
  function SelectProgram(s: AppState, pid: Id): (r: AppState)
    ensures r.activeProgramId == Some(pid) && r.programs == s.programs && r.workoutHistory == s.workoutHistory
    ensures r.userSetupComplete == s.userSetupComplete
  {
    s.(activeProgramId := Some(pid))
  }

  /** Program `i` with its exercise list replaced; everything else as it was. */
  function WithExercises(s: AppState, i: nat, exercises: seq<Exercise>): (r: AppState)
    requires i < |s.programs|
    ensures |r.programs| == |s.programs|
    ensures r.programs[i] == s.programs[i].(exercises := exercises)
    ensures forall k :: 0 <= k < |s.programs| && k != i ==> r.programs[k] == s.programs[k]
    ensures r.workoutHistory == s.workoutHistory && r.activeProgramId == s.activeProgramId
    ensures r.userSetupComplete == s.userSetupComplete
  {
    s.(programs := s.programs[i := s.programs[i].(exercises := exercises)])
  }

  /** `add_exercise_to_active_program`, with `newId` for the clock-derived id: appended with no target. */
  function AddExercise(s: AppState, name: string, newId: Id): (r: AppState)
    ensures ActiveIndex(s).None? ==> r == s
    ensures ActiveIndex(s).Some? ==>
              var i := ActiveIndex(s).value;
              r == WithExercises(s, i, s.programs[i].exercises + [Exercise(newId, name, None)])
  {
    match ActiveIndex(s)
    case None => s
    case Some(i) => WithExercises(s, i, s.programs[i].exercises + [Exercise(newId, name, None)])
  }

  /** The exercises whose id differs from `exerciseId`, in order. */
  function WithoutExercise(exercises: seq<Exercise>, exerciseId: Id): (r: seq<Exercise>)
    ensures |r| <= |exercises|
    ensures forall i :: 0 <= i < |r| ==> r[i] in exercises && r[i].id != exerciseId
    ensures forall i :: 0 <= i < |exercises| && exercises[i].id != exerciseId ==> exercises[i] in r
  {
    Filter(exercises, (e: Exercise) => e.id != exerciseId)
  }

  /** Removing an exercise id from a concatenation removes it from each part in turn; one exercise stays exactly when its id differs. */
  lemma WithoutExerciseAppend(a: seq<Exercise>, b: seq<Exercise>, exerciseId: Id)
    ensures WithoutExercise(a + b, exerciseId) == WithoutExercise(a, exerciseId) + WithoutExercise(b, exerciseId)
    ensures forall x :: WithoutExercise([x], exerciseId) == if x.id != exerciseId then [x] else []
  {
    FilterAppend(a, b, (e: Exercise) => e.id != exerciseId);
  }

  /** `delete_exercise_from_active`: the exercise leaves the active program only. */
  function DeleteExercise(s: AppState, exerciseId: Id): (r: AppState)
    ensures ActiveIndex(s).None? ==> r == s
    ensures ActiveIndex(s).Some? ==>
              var i := ActiveIndex(s).value;
              r == WithExercises(s, i, WithoutExercise(s.programs[i].exercises, exerciseId))
  {
    match ActiveIndex(s)
    case None => s
    case Some(i) => WithExercises(s, i, WithoutExercise(s.programs[i].exercises, exerciseId))
  }

  /** Editing one program's exercise list leaves the active program where it was. */
  lemma WithExercisesKeepsActive(s: AppState, i: nat, exercises: seq<Exercise>)
    requires i < |s.programs|
    ensures ActiveIndex(WithExercises(s, i, exercises)) == ActiveIndex(s)
  {
    var r := WithExercises(s, i, exercises);
    if !Falsy(s.activeProgramId) {
      var id := s.activeProgramId.value;
      if ProgramIndex(s.programs, id).Some? {
        assert r.programs[ProgramIndex(s.programs, id).value].id == id;
      }
      if ProgramIndex(r.programs, id).Some? {
        assert s.programs[ProgramIndex(r.programs, id).value].id == id;
      }
    }
  }

  /** A new exercise is appended, with no target, to the program that stays active; no other program changes. */
  lemma AddedExerciseHasNoTarget(s: AppState, name: string, newId: Id)
    requires ActiveIndex(s).Some?
    ensures var r := AddExercise(s, name, newId);
            var i := ActiveIndex(s).value;
            ActiveIndex(r) == Some(i) &&
            GetActiveProgram(r).value.exercises == GetActiveProgram(s).value.exercises + [Exercise(newId, name, None)] &&
            forall k :: 0 <= k < |s.programs| && k != i ==> r.programs[k] == s.programs[k]
  {
    var i := ActiveIndex(s).value;
    WithExercisesKeepsActive(s, i, s.programs[i].exercises + [Exercise(newId, name, None)]);
  }

  /** A deleted exercise is gone from the program that stays active, the rest kept; no other program changes. */
  lemma DeletedExerciseIsGone(s: AppState, exerciseId: Id)
    requires ActiveIndex(s).Some?
    ensures var r := DeleteExercise(s, exerciseId);
            var i := ActiveIndex(s).value;
            var before := s.programs[i].exercises;
            var after := r.programs[i].exercises;
            ActiveIndex(r) == Some(i) &&
            (forall k :: 0 <= k < |after| ==> after[k].id != exerciseId && after[k] in before) &&
            (forall k :: 0 <= k < |before| && before[k].id != exerciseId ==> before[k] in after) &&
            forall k :: 0 <= k < |s.programs| && k != i ==> r.programs[k] == s.programs[k]
  {
    var i := ActiveIndex(s).value;
    WithExercisesKeepsActive(s, i, WithoutExercise(s.programs[i].exercises, exerciseId));
  }

  /** The rule `app/logic/logic.py` applies after loading: a set-up user with programs but no active id gets the first one. */
  function AfterLoad(s: AppState): (r: AppState)
    ensures r.programs == s.programs && r.workoutHistory == s.workoutHistory
    ensures r.userSetupComplete == s.userSetupComplete
    ensures s.userSetupComplete && |s.programs| > 0 && Falsy(s.activeProgramId) ==>
              r.activeProgramId == Some(s.programs[0].id)
    ensures !(s.userSetupComplete && |s.programs| > 0 && Falsy(s.activeProgramId)) ==> r == s
  {
    if s.userSetupComplete && |s.programs| > 0 && Falsy(s.activeProgramId) then
      s.(activeProgramId := Some(s.programs[0].id))
    else s
  }

  // ---------------------------------------------------------------------------
  // save_workout

  /** The `exercise` part of a saved item: the UI's copy of the exercise, tagged with its program id. */
  datatype ItemExercise = ItemExercise(id: Id, name: string, programId: Id)

  /** One element of `saved_exercises_data`. */
  datatype SaveItem = SaveItem(exercise: ItemExercise, newSets: seq<WorkSet>)

  /**
   * One item's effect on the active program's exercises; `None` when
   * `calculate_next_target` raises on a double-progression target with a
   * null weight.
   */
  function ApplyItem(exercises: seq<Exercise>, kind: ProgressionType, item: SaveItem): (r: Option<seq<Exercise>>)
    ensures r.None? <==>
              |Working(item.newSets)| > 0 && ExerciseIndex(exercises, item.exercise.id).Some? &&
              kind == Double &&
              exercises[ExerciseIndex(exercises, item.exercise.id).value].nextTarget.Some? &&
              exercises[ExerciseIndex(exercises, item.exercise.id).value].nextTarget.value.weight.None?
    ensures r.Some? ==> |r.value| == |exercises|
    ensures r.Some? ==> forall k :: 0 <= k < |exercises| ==>
              r.value[k].id == exercises[k].id && r.value[k].name == exercises[k].name
    ensures r.Some? ==> forall k :: 0 <= k < |exercises| && r.value[k] != exercises[k] ==>
              ExerciseIndex(exercises, item.exercise.id) == Some(k) && |Working(item.newSets)| > 0 &&
              (exercises[k].nextTarget.None? || GoalAchieved(exercises[k].nextTarget, Working(item.newSets), kind)) &&
              NoBaselineCrash(exercises[k].nextTarget, Some(Working(item.newSets)), kind) &&
              r.value[k].nextTarget == NextTarget(exercises[k].nextTarget, Some(Working(item.newSets)), kind)
    ensures r.Some? ==> forall k :: 0 <= k < |exercises| && ExerciseIndex(exercises, item.exercise.id) == Some(k) &&
                                    |Working(item.newSets)| > 0 &&
                                    (exercises[k].nextTarget.None? || GoalAchieved(exercises[k].nextTarget, Working(item.newSets), kind)) ==>
              NoBaselineCrash(exercises[k].nextTarget, Some(Working(item.newSets)), kind) &&
              r.value[k].nextTarget == NextTarget(exercises[k].nextTarget, Some(Working(item.newSets)), kind)
    ensures r.Some? && (|Working(item.newSets)| == 0 || ExerciseIndex(exercises, item.exercise.id).None? ||
                        (exercises[ExerciseIndex(exercises, item.exercise.id).value].nextTarget.Some? &&
                         !GoalAchieved(exercises[ExerciseIndex(exercises, item.exercise.id).value].nextTarget, Working(item.newSets), kind))) ==>
              r.value == exercises
  {
    var ws := Working(item.newSets);
    WorkingIdempotent(item.newSets);
    if |ws| == 0 then Some(exercises)
    else match ExerciseIndex(exercises, item.exercise.id)
      case None => Some(exercises)
      case Some(j) =>
        var current := exercises[j].nextTarget;
        if current.None? then
          Some(exercises[j := exercises[j].(nextTarget := NextTarget(current, Some(ws), kind))])
        else if !GoalAchieved(current, ws, kind) then Some(exercises)
        else if !NoBaselineCrash(current, Some(ws), kind) then None
        else Some(exercises[j := exercises[j].(nextTarget := NextTarget(current, Some(ws), kind))])
  }

  /** The exercises after some items, and whether an item raised (the later ones are then never reached). */
  datatype Progress = Progress(exercises: seq<Exercise>, raised: bool)

  /** The target-update loop of `save_workout`, item by item. */
  function ApplyItems(exercises: seq<Exercise>, kind: ProgressionType, items: seq<SaveItem>): (r: Progress)
    ensures |r.exercises| == |exercises|
    ensures forall k :: 0 <= k < |exercises| ==>
              r.exercises[k].id == exercises[k].id && r.exercises[k].name == exercises[k].name
    ensures forall k :: (0 <= k < |exercises| &&
                         forall n :: 0 <= n < |items| ==> items[n].exercise.id != exercises[k].id) ==>
              r.exercises[k] == exercises[k]
  {
    if items == [] then Progress(exercises, false)
    else
      var before := ApplyItems(exercises, kind, items[..|items| - 1]);
      if before.raised then before
      else match ApplyItem(before.exercises, kind, items[|items| - 1])
        case None => Progress(before.exercises, true)
        case Some(next) =>
          forall k | 0 <= k < |exercises| && (forall n :: 0 <= n < |items| ==> items[n].exercise.id != exercises[k].id)
            ensures next[k] == exercises[k]
          {
            assert forall n :: 0 <= n < |items| - 1 ==> items[..|items| - 1][n] == items[n];
          }
          Progress(next, false)
  }

  /** One more item, after none has raised, applies that item's update to the targets so far. */
  lemma ApplyItemsStep(exercises: seq<Exercise>, kind: ProgressionType, items: seq<SaveItem>, k: nat)
    requires k < |items|
    requires !ApplyItems(exercises, kind, items[..k]).raised
    ensures var before := ApplyItems(exercises, kind, items[..k]).exercises;
            ApplyItems(exercises, kind, items[..k + 1])
              == match ApplyItem(before, kind, items[k])
                 case None => Progress(before, true)
                 case Some(next) => Progress(next, false)
  {
    assert items[..k + 1][..k] == items[..k];
  }

  /** Once an item has raised, the items after it change nothing. */
  lemma {:induction false} RaisedIsFinal(exercises: seq<Exercise>, kind: ProgressionType, items: seq<SaveItem>, n: nat)
    requires n <= |items|
    requires ApplyItems(exercises, kind, items[..n]).raised
    ensures ApplyItems(exercises, kind, items) == ApplyItems(exercises, kind, items[..n])
    decreases |items| - n
  {
    if n < |items| {
      assert items[..n + 1][..n] == items[..n];
      RaisedIsFinal(exercises, kind, items, n + 1);
    } else {
      assert items[..n] == items;
    }
  }

  /** `session_to_delete`'s counterpart for a commit: the history entry `save_workout` appends. */
  function SessionRecord(p: Program, items: seq<SaveItem>, sessionId: Id, date: string): (w: WorkoutSession)
    ensures w.id == sessionId && w.date == date && w.programId == p.id && w.programName == p.name
    ensures |w.exercises| == |items|
    ensures forall n :: 0 <= n < |items| ==>
              w.exercises[n] == ExerciseResult(items[n].exercise.id, items[n].exercise.name, items[n].newSets)
  {
    WorkoutSession(sessionId, date, p.id, p.name,
      seq(|items|, n requires 0 <= n < |items| =>
        ExerciseResult(items[n].exercise.id, items[n].exercise.name, items[n].newSets)))
  }

  datatype SaveOutcome = NoActiveProgram | Saved | Raised

  datatype SaveResult = SaveResult(state: AppState, outcome: SaveOutcome)

  /**
   * `save_workout` on the state, with `sessionId` and `date` for the clock
   * readings. A raise leaves the targets updated so far and appends nothing.
   */
  function SaveWorkout(s: AppState, items: seq<SaveItem>, sessionId: Id, date: string): (r: SaveResult)
    ensures r.outcome == NoActiveProgram <==> ActiveIndex(s).None?
    ensures r.outcome == NoActiveProgram ==> r.state == s
    ensures r.state.activeProgramId == s.activeProgramId && r.state.userSetupComplete == s.userSetupComplete
    ensures |r.state.programs| == |s.programs|
    ensures r.outcome != Saved ==> r.state.workoutHistory == s.workoutHistory
    ensures r.outcome == Saved ==>
              r.state.workoutHistory == s.workoutHistory + [SessionRecord(s.programs[ActiveIndex(s).value], items, sessionId, date)]
    ensures r.outcome != NoActiveProgram ==>
              forall k :: 0 <= k < |s.programs| && k != ActiveIndex(s).value ==> r.state.programs[k] == s.programs[k]
    ensures r.outcome != NoActiveProgram ==>
              var i := ActiveIndex(s).value;
              var progress := ApplyItems(s.programs[i].exercises, s.programs[i].kind, items);
              (r.outcome == Raised <==> progress.raised) &&
              r.state.programs[i] == s.programs[i].(exercises := progress.exercises)
  {
    match ActiveIndex(s)
    case None => SaveResult(s, NoActiveProgram)
    case Some(i) =>
      var p := s.programs[i];
      var progress := ApplyItems(p.exercises, p.kind, items);
      var updated := WithExercises(s, i, progress.exercises);
      if progress.raised then SaveResult(updated, Raised)
      else SaveResult(updated.(workoutHistory := updated.workoutHistory + [SessionRecord(p, items, sessionId, date)]), Saved)
  }

  /** A commit keeps which program is active: its id, name, type and exercise ids are as before. */
  lemma SaveKeepsActiveProgram(s: AppState, items: seq<SaveItem>, sessionId: Id, date: string)
    requires ActiveIndex(s).Some?
    ensures var r := SaveWorkout(s, items, sessionId, date).state;
            var i := ActiveIndex(s).value;
            ActiveIndex(r) == Some(i) &&
            r.programs[i].id == s.programs[i].id && r.programs[i].name == s.programs[i].name &&
            r.programs[i].kind == s.programs[i].kind &&
            ExerciseIds(r.programs[i].exercises) == ExerciseIds(s.programs[i].exercises)
  {
  }

  // ---------------------------------------------------------------------------
  // generate_workout_summary

  /** `success` on a first workout ("great start"), `success` on an achieved goal, `failure` on a missed one. */
  datatype Status = Started | Achieved | Missed

  /** One summary line: the exercise, its status and the target it shows (the next one, or the one to repeat). */
  datatype Detail = Detail(exerciseName: string, status: Status, shown: Target)

  datatype Summary = Summary(allGoalsAchieved: bool, details: seq<Detail>)

  /** `Raises` is the `TypeError`/`ValueError` the source lets escape. */
  datatype Preview = Skipped | Shown(detail: Detail) | Raises

  /**
   * One item of `generate_workout_summary`: the program is looked up by the
   * item's own program id, not by the active id. A potential target of `None`
   * cannot be displayed and raises.
   */
  function PreviewItem(s: AppState, item: SaveItem): Preview {
    var ws := Working(item.newSets);
    if |ws| == 0 then Skipped
    else match GetProgramById(s, item.exercise.programId)
      case None => Skipped
      case Some(p) =>
        match ExerciseIndex(p.exercises, item.exercise.id)
        case None => Skipped
        case Some(j) =>
          var ex := p.exercises[j];
          if ex.nextTarget.None? then
            var potential := NextTarget(None, Some(ws), p.kind);
            if potential.None? then Raises else Shown(Detail(ex.name, Started, potential.value))
          else if GoalAchieved(ex.nextTarget, ws, p.kind) then
            if !NoBaselineCrash(ex.nextTarget, Some(ws), p.kind) then Raises
            else
              var potential := NextTarget(ex.nextTarget, Some(ws), p.kind);
              if potential.None? then Raises else Shown(Detail(ex.name, Achieved, potential.value))
          else Shown(Detail(ex.name, Missed, ex.nextTarget.value))
  }

  datatype SummaryResult = Summarized(summary: Summary) | SummaryRaised

  /** The summary so far with one more item's preview taken in. */
  function AddPreview(acc: SummaryResult, p: Preview): (r: SummaryResult)
    ensures acc.SummaryRaised? || p.Raises? ==> r.SummaryRaised?
    ensures acc.Summarized? && p.Skipped? ==> r == acc
    ensures acc.Summarized? && p.Shown? ==>
              r == Summarized(Summary(acc.summary.allGoalsAchieved && p.detail.status != Missed,
                                      acc.summary.details + [p.detail]))
  {
    match acc
    case SummaryRaised => SummaryRaised
    case Summarized(sum) =>
      match p
      case Skipped => acc
      case Raises => SummaryRaised
      case Shown(d) => Summarized(Summary(sum.allGoalsAchieved && d.status != Missed, sum.details + [d]))
  }

  /** `generate_workout_summary`: a read-only pass over the items, stopping at the first raise. */
  function Summarize(s: AppState, items: seq<SaveItem>): (r: SummaryResult)
    ensures r.Summarized? ==> |r.summary.details| <= |items|
    ensures r.Summarized? ==>
              (r.summary.allGoalsAchieved <==>
               forall n :: 0 <= n < |r.summary.details| ==> r.summary.details[n].status != Missed)
  {
    if items == [] then Summarized(Summary(true, []))
    else
      var before := Summarize(s, items[..|items| - 1]);
      var p := PreviewItem(s, items[|items| - 1]);
      AddPreviewKeepsTally(before, p);
      AddPreview(before, p)
  }

  /** Adding one preview keeps the flag equal to "no detail is a miss" and adds at most one detail. */
  lemma AddPreviewKeepsTally(acc: SummaryResult, p: Preview)
    requires acc.Summarized? ==>
               (acc.summary.allGoalsAchieved <==>
                forall n :: 0 <= n < |acc.summary.details| ==> acc.summary.details[n].status != Missed)
    ensures var r := AddPreview(acc, p);
            r.Summarized? ==>
              acc.Summarized? && |r.summary.details| <= |acc.summary.details| + 1 &&
              (r.summary.allGoalsAchieved <==>
               forall n :: 0 <= n < |r.summary.details| ==> r.summary.details[n].status != Missed)
  {
    var r := AddPreview(acc, p);
    if r.Summarized? && p.Shown? {
      var ds := r.summary.details;
      assert forall n :: 0 <= n < |acc.summary.details| ==> ds[n] == acc.summary.details[n];
      assert ds[|acc.summary.details|] == p.detail;
    }
  }

  /** The summary after `k + 1` items is the preview of item `k` added to the summary after `k`. */
  lemma SummarizeStep(s: AppState, items: seq<SaveItem>, k: nat)
    requires k < |items|
    ensures Summarize(s, items[..k + 1]) == AddPreview(Summarize(s, items[..k]), PreviewItem(s, items[k]))
  {
    assert items[..k + 1][..k] == items[..k];
  }

  /** An item shown in the preview extends the summary by its detail. */
  lemma SummaryShown(s: AppState, items: seq<SaveItem>, k: nat, sum: Summary, d: Detail)
    requires k < |items|
    requires Summarize(s, items[..k]) == Summarized(sum)
    requires PreviewItem(s, items[k]) == Shown(d)
    ensures Summarize(s, items[..k + 1])
              == Summarized(Summary(sum.allGoalsAchieved && d.status != Missed, sum.details + [d]))
  {
    SummarizeStep(s, items, k);
  }

  /** A skipped item leaves the summary as it was. */
  lemma SummarySkipped(s: AppState, items: seq<SaveItem>, k: nat, sum: Summary)
    requires k < |items|
    requires Summarize(s, items[..k]) == Summarized(sum)
    requires PreviewItem(s, items[k]) == Skipped
    ensures Summarize(s, items[..k + 1]) == Summarized(sum)
  {
    SummarizeStep(s, items, k);
  }

  /** Once an item has raised, the summary raises. */
  lemma {:induction false} SummaryRaisedIsFinal(s: AppState, items: seq<SaveItem>, n: nat)
    requires n <= |items|
    requires Summarize(s, items[..n]).SummaryRaised?
    ensures Summarize(s, items).SummaryRaised?
    decreases |items| - n
  {
    if n < |items| {
      assert items[..n + 1][..n] == items[..n];
      SummaryRaisedIsFinal(s, items, n + 1);
    } else {
      assert items[..n] == items;
    }
  }

  /**
   * The summary previews what the commit stores. For an item of the active
   * program: a missed goal shows the stored target and the commit keeps it;
   * otherwise the shown target is the one the commit stores; and a commit
   * that raises on the item has a preview that raises too.
   */
  lemma PreviewMatchesCommit(s: AppState, item: SaveItem)
    requires ActiveIndex(s).Some?
    requires item.exercise.programId == s.activeProgramId.value
    ensures var i := ActiveIndex(s).value;
            var p := s.programs[i];
            var saved := ApplyItem(p.exercises, p.kind, item);
            (saved.None? ==> PreviewItem(s, item).Raises?) &&
            (PreviewItem(s, item).Shown? && saved.Some? ==>
               var j := ExerciseIndex(p.exercises, item.exercise.id).value;
               ExerciseIndex(p.exercises, item.exercise.id).Some? &&
               saved.value[j].nextTarget == Some(PreviewItem(s, item).detail.shown) &&
               (PreviewItem(s, item).detail.status == Missed ==> saved.value == p.exercises))
  {
    ActiveIsProgramById(s);
    WorkingIdempotent(item.newSets);
  }

  /**
   * Whether a commit raises depends only on the items before it: the summary
   * is spared a raise only if the commit is too.
   */
  lemma {:induction false} SummaryCleanMeansCommitClean(s: AppState, items: seq<SaveItem>)
    requires ActiveIndex(s).Some?
    requires forall n :: 0 <= n < |items| ==> items[n].exercise.programId == s.activeProgramId.value
    requires forall n, m :: 0 <= n < m < |items| ==> items[n].exercise.id != items[m].exercise.id
    requires Summarize(s, items).Summarized?
    ensures !ApplyItems(s.programs[ActiveIndex(s).value].exercises, s.programs[ActiveIndex(s).value].kind, items).raised
  {
    var i := ActiveIndex(s).value;
    var p := s.programs[i];
    if items != [] {
      var last := items[|items| - 1];
      var init := items[..|items| - 1];
      assert Summarize(s, init).Summarized?;
      SummaryCleanMeansCommitClean(s, init);
      var before := ApplyItems(p.exercises, p.kind, init);
      assert !before.raised;
      assert PreviewItem(s, last) != Raises;
      PreviewMatchesCommit(s, last);
      // The earlier items name other exercises, so the last item meets its exercise untouched.
      forall k | 0 <= k < |p.exercises| && p.exercises[k].id == last.exercise.id
        ensures before.exercises[k] == p.exercises[k]
      {
        forall n | 0 <= n < |init| ensures init[n].exercise.id != p.exercises[k].id {
          assert init[n] == items[n];
        }
      }
      SameSlotSameRaise(p.exercises, before.exercises, p.kind, last);
      assert ApplyItem(before.exercises, p.kind, last).Some?;
    }
  }

  /** Whether an item raises depends only on the exercise it names. */
  lemma SameSlotSameRaise(a: seq<Exercise>, b: seq<Exercise>, kind: ProgressionType, item: SaveItem)
    requires |a| == |b|
    requires forall k :: 0 <= k < |a| ==> a[k].id == b[k].id
    requires forall k :: 0 <= k < |a| && a[k].id == item.exercise.id ==> a[k] == b[k]
    ensures ApplyItem(a, kind, item).None? <==> ApplyItem(b, kind, item).None?
  {
    SameIdsSameIndex(a, b, item.exercise.id);
  }

  /** Two exercise lists with the same ids find an id at the same place. */
  lemma SameIdsSameIndex(a: seq<Exercise>, b: seq<Exercise>, id: Id)
    requires |a| == |b|
    requires forall k :: 0 <= k < |a| ==> a[k].id == b[k].id
    ensures ExerciseIndex(a, id) == ExerciseIndex(b, id)
  {
    if ExerciseIndex(a, id).Some? {
      assert b[ExerciseIndex(a, id).value].id == id;
    }
    if ExerciseIndex(b, id).Some? {
      assert a[ExerciseIndex(b, id).value].id == id;
    }
  }

  /** Exercise `j` is the same before and after items that name other exercises, in a commit that has not raised. */
  lemma {:induction false} SlotUntouched(exercises: seq<Exercise>, kind: ProgressionType, items: seq<SaveItem>,
                                         j: nat, lo: nat, hi: nat)
    requires lo <= hi <= |items| && j < |exercises|
    requires forall m :: lo <= m < hi ==> items[m].exercise.id != exercises[j].id
    requires !ApplyItems(exercises, kind, items[..hi]).raised
    ensures ApplyItems(exercises, kind, items[..hi]).exercises[j] == ApplyItems(exercises, kind, items[..lo]).exercises[j]
    decreases hi - lo
  {
    if lo < hi {
      var n := hi - 1;
      assert items[..hi][..n] == items[..n];
      assert !ApplyItems(exercises, kind, items[..n]).raised;
      SlotUntouched(exercises, kind, items, j, lo, n);
      ApplyItemsStep(exercises, kind, items, n);
    }
  }

  /** Two exercise lists that agree on the item's exercise give it the same new target. */
  lemma SameSlotSameTarget(a: seq<Exercise>, b: seq<Exercise>, kind: ProgressionType, item: SaveItem, j: nat)
    requires |a| == |b| && j < |a|
    requires forall k :: 0 <= k < |a| ==> a[k].id == b[k].id
    requires a[j] == b[j] && ExerciseIndex(a, item.exercise.id) == Some(j)
    requires ApplyItem(a, kind, item).Some?
    ensures ApplyItem(b, kind, item).Some? && ApplyItem(b, kind, item).value[j] == ApplyItem(a, kind, item).value[j]
  {
    SameIdsSameIndex(a, b, item.exercise.id);
  }

  /**
   * The summary shows what saving the same list stores. For items of the
   * active program that name distinct exercises, a save that goes through
   * stores, for every item the summary shows, exactly the target shown.
   */
  lemma SummaryMatchesSave(s: AppState, items: seq<SaveItem>, sessionId: Id, date: string, k: nat)
    requires ActiveIndex(s).Some?
    requires forall n :: 0 <= n < |items| ==> items[n].exercise.programId == s.activeProgramId.value
    requires forall n, m :: 0 <= n < m < |items| ==> items[n].exercise.id != items[m].exercise.id
    requires k < |items| && PreviewItem(s, items[k]).Shown?
    requires SaveWorkout(s, items, sessionId, date).outcome == Saved
    ensures var i := ActiveIndex(s).value;
            var j := ExerciseIndex(s.programs[i].exercises, items[k].exercise.id);
            j.Some? &&
            SaveWorkout(s, items, sessionId, date).state.programs[i].exercises[j.value].nextTarget
              == Some(PreviewItem(s, items[k]).detail.shown)
  {
    var i := ActiveIndex(s).value;
    var p := s.programs[i];
    var item := items[k];
    assert items[..|items|] == items;
    assert !ApplyItems(p.exercises, p.kind, items).raised;
    if ApplyItems(p.exercises, p.kind, items[..k]).raised {
      RaisedIsFinal(p.exercises, p.kind, items, k);
    }
    if ApplyItems(p.exercises, p.kind, items[..k + 1]).raised {
      RaisedIsFinal(p.exercises, p.kind, items, k + 1);
    }
    assert items[..0] == [];
    var before := ApplyItems(p.exercises, p.kind, items[..k]).exercises;
    // The earlier items name other exercises, so this item meets its exercise untouched.
    forall j' | 0 <= j' < |p.exercises| && p.exercises[j'].id == item.exercise.id
      ensures before[j'] == p.exercises[j']
    {
      SlotUntouched(p.exercises, p.kind, items, j', 0, k);
    }
    ApplyItemsStep(p.exercises, p.kind, items, k);
    assert ApplyItem(before, p.kind, item).Some?;
    SameSlotSameRaise(p.exercises, before, p.kind, item);
    PreviewMatchesCommit(s, item);
    var j := ExerciseIndex(p.exercises, item.exercise.id).value;
    SameSlotSameTarget(p.exercises, before, p.kind, item, j);
    // The later items name other exercises too, so nothing overwrites what this item stored.
    SlotUntouched(p.exercises, p.kind, items, j, k + 1, |items|);
  }
}
