/**
 * Read-only accessors over the application state: the active program, a
 * program by id, an exercise by id (tagged with its program), and the most
 * recent history record of an exercise. All are first-match scans.
 */
module Models {
  import opened Wrappers
  import opened Types
  import opened Search

  /** Python's `not active_id` for an optional integer id: None or 0. */
  predicate Falsy(id: Option<Id>) {
    id.None? || id.value == 0
  }

  /** The position of the first program with id `id`. */
  function ProgramIndex(programs: seq<Program>, id: Id): (r: Option<nat>)
    ensures r.Some? ==> r.value < |programs| && programs[r.value].id == id
    ensures r.Some? ==> forall i :: 0 <= i < r.value ==> programs[i].id != id
    ensures r.None? <==> forall i :: 0 <= i < |programs| ==> programs[i].id != id
  {
    FirstIndex(programs, (p: Program) => p.id == id)
  }

  /** The position of the active program: none when the active id is falsy. */
  function ActiveIndex(s: AppState): (r: Option<nat>)
    ensures r.Some? ==> !Falsy(s.activeProgramId) && r.value < |s.programs|
    ensures r.Some? ==> s.programs[r.value].id == s.activeProgramId.value
    ensures r.Some? ==> forall i :: 0 <= i < r.value ==> s.programs[i].id != s.activeProgramId.value
    ensures r.None? <==> Falsy(s.activeProgramId) ||
                         forall i :: 0 <= i < |s.programs| ==> s.programs[i].id != s.activeProgramId.value
  {
    if Falsy(s.activeProgramId) then None else ProgramIndex(s.programs, s.activeProgramId.value)
  }

  /** `get_active_program`. */
  function GetActiveProgram(s: AppState): (r: Option<Program>)
    ensures r.None? <==> Falsy(s.activeProgramId) ||
                         forall i :: 0 <= i < |s.programs| ==> s.programs[i].id != s.activeProgramId.value
    ensures r.Some? ==> !Falsy(s.activeProgramId) && r.value.id == s.activeProgramId.value
    ensures r.Some? ==> exists i :: 0 <= i < |s.programs| && s.programs[i] == r.value &&
                                    forall k :: 0 <= k < i ==> s.programs[k].id != r.value.id
  {
    match ActiveIndex(s)
    case None => None
    case Some(i) => Some(s.programs[i])
  }

  /** `get_program_by_id`. */
  function GetProgramById(s: AppState, id: Id): (r: Option<Program>)
    ensures r.None? <==> forall i :: 0 <= i < |s.programs| ==> s.programs[i].id != id
    ensures r.Some? ==> r.value.id == id
    ensures r.Some? ==> exists i :: 0 <= i < |s.programs| && s.programs[i] == r.value &&
                                    forall k :: 0 <= k < i ==> s.programs[k].id != id
  {
    match ProgramIndex(s.programs, id)
    case None => None
    case Some(i) => Some(s.programs[i])
  }

  /** With a truthy active id, the active program is the program with that id. */
  lemma ActiveIsProgramById(s: AppState)
    requires !Falsy(s.activeProgramId)
    ensures GetActiveProgram(s) == GetProgramById(s, s.activeProgramId.value)
  {
  }

  /** The position of the first exercise with id `id` in one program. */
  function ExerciseIndex(exercises: seq<Exercise>, id: Id): (r: Option<nat>)
    ensures r.Some? ==> r.value < |exercises| && exercises[r.value].id == id
    ensures r.Some? ==> forall j :: 0 <= j < r.value ==> exercises[j].id != id
    ensures r.None? <==> forall j :: 0 <= j < |exercises| ==> exercises[j].id != id
  {
    FirstIndex(exercises, (e: Exercise) => e.id == id)
  }

  /** Where the first exercise with id `id` sits, scanning programs in order, then their exercises. */
  function ExerciseLocation(programs: seq<Program>, id: Id): (r: Option<(nat, nat)>)
    ensures r.Some? ==> r.value.0 < |programs| && r.value.1 < |programs[r.value.0].exercises|
    ensures r.Some? ==> programs[r.value.0].exercises[r.value.1].id == id
    ensures r.Some? ==> forall i, j :: 0 <= i < r.value.0 && 0 <= j < |programs[i].exercises| ==>
                                       programs[i].exercises[j].id != id
    ensures r.Some? ==> forall j :: 0 <= j < r.value.1 ==> programs[r.value.0].exercises[j].id != id
    ensures r.None? <==> forall i, j :: 0 <= i < |programs| && 0 <= j < |programs[i].exercises| ==>
                                        programs[i].exercises[j].id != id
  {
    if |programs| == 0 then None
    else match ExerciseIndex(programs[0].exercises, id)
      case Some(j) => Some((0, j))
      case None =>
        match ExerciseLocation(programs[1..], id)
        case None => None
        case Some(loc) => Some((loc.0 + 1, loc.1))
  }

  /** `find_exercise_by_id`'s result: a copy of the exercise tagged with its program's id. */
  datatype FoundExercise = FoundExercise(exercise: Exercise, programId: Id)

  /** `find_exercise_by_id`. */
  function FindExerciseById(s: AppState, id: Id): (r: Option<FoundExercise>)
    ensures r.None? <==> forall i, j :: 0 <= i < |s.programs| && 0 <= j < |s.programs[i].exercises| ==>
                                        s.programs[i].exercises[j].id != id
    ensures r.Some? ==> r.value.exercise.id == id
    ensures r.Some? ==> exists i, j :: 0 <= i < |s.programs| && 0 <= j < |s.programs[i].exercises| &&
                                       s.programs[i].exercises[j] == r.value.exercise &&
                                       s.programs[i].id == r.value.programId &&
                                       (forall i', j' :: 0 <= i' < i && 0 <= j' < |s.programs[i'].exercises| ==>
                                                         s.programs[i'].exercises[j'].id != id) &&
                                       (forall j' :: 0 <= j' < j ==> s.programs[i].exercises[j'].id != id)
  {
    match ExerciseLocation(s.programs, id)
    case None => None
    case Some(loc) => Some(FoundExercise(s.programs[loc.0].exercises[loc.1], s.programs[loc.0].id))
  }

  /** The position of the first record of exercise `id` inside one session. */
  function EntryIndex(entries: seq<ExerciseResult>, id: Id): (r: Option<nat>)
    ensures r.Some? ==> r.value < |entries| && entries[r.value].exerciseId == id
    ensures r.Some? ==> forall j :: 0 <= j < r.value ==> entries[j].exerciseId != id
    ensures r.None? <==> forall j :: 0 <= j < |entries| ==> entries[j].exerciseId != id
  {
    FirstIndex(entries, (e: ExerciseResult) => e.exerciseId == id)
  }

  /** The session records exercise `id`. */
  predicate Contains(w: WorkoutSession, id: Id) {
    EntryIndex(w.exercises, id).Some?
  }

  /** The position of the most recent session that records exercise `id`. */
  function LastSessionWith(history: seq<WorkoutSession>, id: Id): (r: Option<nat>)
    ensures r.Some? ==> r.value < |history| && Contains(history[r.value], id)
    ensures r.Some? ==> forall i :: r.value < i < |history| ==> !Contains(history[i], id)
    ensures r.None? <==> forall i :: 0 <= i < |history| ==> !Contains(history[i], id)
  {
    LastIndex(history, (w: WorkoutSession) => Contains(w, id))
  }

  /** `get_last_workout_for_exercise`: the first record of `id` in the latest session holding one. */
  function GetLastWorkoutForExercise(s: AppState, id: Id): (r: Option<ExerciseResult>)
    ensures r.None? <==> forall i :: 0 <= i < |s.workoutHistory| ==> !Contains(s.workoutHistory[i], id)
    ensures r.Some? ==> r.value.exerciseId == id
    ensures r.Some? ==> exists i, j :: 0 <= i < |s.workoutHistory| && 0 <= j < |s.workoutHistory[i].exercises| &&
                                       s.workoutHistory[i].exercises[j] == r.value &&
                                       (forall j' :: 0 <= j' < j ==> s.workoutHistory[i].exercises[j'].exerciseId != id) &&
                                       (forall i' :: i < i' < |s.workoutHistory| ==> !Contains(s.workoutHistory[i'], id))
  {
    match LastSessionWith(s.workoutHistory, id)
    case None => None
    case Some(i) =>
      var j := EntryIndex(s.workoutHistory[i].exercises, id).value;
      Some(s.workoutHistory[i].exercises[j])
  }
}
