/**
 * The record the legacy `ProgressiveOverloadLogic` classes keep in `app_data`
 * (each exercise also carries its own `history` list), the lookups they use,
 * and the commands both legacy files implement the same way: deleting and
 * selecting programs, adding and deleting exercises, the post-load rule and
 * deleting a history session.
 */
module LegacyData {
  import opened Wrappers
  import opened Types
  import opened Search
  import opened LegacyRules
  import Models
  import HistoryRules

  /** One entry of an exercise's own `history`. */
  datatype HistoryEntry = HistoryEntry(date: string, sets: seq<WorkSet>)

  datatype LegacyExercise = LegacyExercise(id: Id, name: string, history: seq<HistoryEntry>,
                                           nextTarget: Option<LegacyTarget>)

  datatype LegacyProgram = LegacyProgram(id: Id, name: string, kind: ProgressionType, exercises: seq<LegacyExercise>)

  /** `app_data`; `activeProgramId == None` is JSON null. */
  datatype LegacyState = LegacyState(programs: seq<LegacyProgram>, workoutHistory: seq<WorkoutSession>,
                                     userSetupComplete: bool, activeProgramId: Option<Id>)

  /** The state `reset_all_data` and a missing data file start from. */
  const EmptyLegacyState := LegacyState([], [], false, None)

  // ---------------------------------------------------------------------------
  // Lookups

  /** The position of the first program with id `id` (`get_program_by_id`). */
  function ProgramIndex(programs: seq<LegacyProgram>, id: Id): (r: Option<nat>)
    ensures r.Some? ==> r.value < |programs| && programs[r.value].id == id
    ensures r.Some? ==> forall i :: 0 <= i < r.value ==> programs[i].id != id
    ensures r.None? <==> forall i :: 0 <= i < |programs| ==> programs[i].id != id
  {
    FirstIndex(programs, (p: LegacyProgram) => p.id == id)
  }

  /** The position of the active program (`get_active_program`): none when the active id is falsy. */
  function ActiveIndex(s: LegacyState): (r: Option<nat>)
    ensures r.Some? ==> !Models.Falsy(s.activeProgramId) && r.value < |s.programs|
    ensures r.Some? ==> s.programs[r.value].id == s.activeProgramId.value
    ensures r.None? <==> Models.Falsy(s.activeProgramId) ||
                         forall i :: 0 <= i < |s.programs| ==> s.programs[i].id != s.activeProgramId.value
  {
    if Models.Falsy(s.activeProgramId) then None else ProgramIndex(s.programs, s.activeProgramId.value)
  }

  /** The position of the first exercise with id `id` in one program. */
  function ExerciseIndex(exercises: seq<LegacyExercise>, id: Id): (r: Option<nat>)
    ensures r.Some? ==> r.value < |exercises| && exercises[r.value].id == id
    ensures r.Some? ==> forall j :: 0 <= j < r.value ==> exercises[j].id != id
    ensures r.None? <==> forall j :: 0 <= j < |exercises| ==> exercises[j].id != id
  {
    FirstIndex(exercises, (e: LegacyExercise) => e.id == id)
  }

  /** Where `find_exercise_by_id` finds exercise `id`: programs in order, then their exercises. */
  function ExerciseLocation(programs: seq<LegacyProgram>, id: Id): (r: Option<(nat, nat)>)
    ensures r.Some? ==> r.value.0 < |programs| && r.value.1 < |programs[r.value.0].exercises|
    ensures r.Some? ==> programs[r.value.0].exercises[r.value.1].id == id
    ensures r.Some? ==> forall i, j :: 0 <= i < r.value.0 && 0 <= j < |programs[i].exercises| ==>
                                       programs[i].exercises[j].id != id
    ensures r.None? <==> forall i, j :: 0 <= i < |programs| && 0 <= j < |programs[i].exercises| ==>
                                        programs[i].exercises[j].id != id
  {
    if |programs| == 0 then None
    else match ExerciseIndex(programs[0].exercises, id)
      case Some(j) => Some((0, j))
      case None =>
        match ExerciseLocation(programs[1..], id)
        case None => None
        case Some(loc) => Some((loc.0 + 1, loc.1))
  }

  /** The ids `init_current_workout` seeds the draft with: the active program's exercises, or none. */
  function SeedIds(s: LegacyState): (r: seq<Id>)
    ensures ActiveIndex(s).None? ==> r == []
    ensures ActiveIndex(s).Some? ==> |r| == |s.programs[ActiveIndex(s).value].exercises|
    ensures ActiveIndex(s).Some? ==>
              forall j :: 0 <= j < |r| ==> r[j] == s.programs[ActiveIndex(s).value].exercises[j].id
  {
    match ActiveIndex(s)
    case None => []
    case Some(i) =>
      var exs := s.programs[i].exercises;
      seq(|exs|, j requires 0 <= j < |exs| => exs[j].id)
  }

  // ---------------------------------------------------------------------------
  // Commands both legacy files share

  /** The post-load rule: a set-up store with a falsy active id activates its first program. */
  function AfterLoad(s: LegacyState): (r: LegacyState)
    ensures r.programs == s.programs && r.workoutHistory == s.workoutHistory
    ensures r.userSetupComplete == s.userSetupComplete
    ensures s.userSetupComplete && |s.programs| > 0 && Models.Falsy(s.activeProgramId) ==>
              r.activeProgramId == Some(s.programs[0].id)
    ensures !(s.userSetupComplete && |s.programs| > 0 && Models.Falsy(s.activeProgramId)) ==>
              r.activeProgramId == s.activeProgramId
  {
    if s.userSetupComplete && |s.programs| > 0 && Models.Falsy(s.activeProgramId) then
      s.(activeProgramId := Some(s.programs[0].id))
    else s
  }

  /** `create_new_program` without a length check: appended last and made active. */
  function AppendProgram(s: LegacyState, name: string, kind: ProgressionType, newId: Id): (r: LegacyState)
    ensures r.programs == s.programs + [LegacyProgram(newId, name, kind, [])]
    ensures r.activeProgramId == Some(newId)
    ensures r.workoutHistory == s.workoutHistory && r.userSetupComplete == s.userSetupComplete
  {
    s.(programs := s.programs + [LegacyProgram(newId, name, kind, [])], activeProgramId := Some(newId))
  }

  /** With a fresh, non-zero id the new, empty program is the active one. */
  lemma AppendedProgramIsActive(s: LegacyState, name: string, kind: ProgressionType, newId: Id)
    requires newId != 0
    requires forall i :: 0 <= i < |s.programs| ==> s.programs[i].id != newId
    ensures var r := AppendProgram(s, name, kind, newId);
            ActiveIndex(r) == Some(|s.programs|) && SeedIds(r) == []
  {
    var r := AppendProgram(s, name, kind, newId);
    assert r.programs[|s.programs|].id == newId;
  }

  /** The programs whose id differs from `pid`, in order. */
  function WithoutProgram(programs: seq<LegacyProgram>, pid: Id): (r: seq<LegacyProgram>)
    ensures |r| <= |programs|
    ensures forall i :: 0 <= i < |r| ==> r[i] in programs && r[i].id != pid
    ensures forall i :: 0 <= i < |programs| && programs[i].id != pid ==> programs[i] in r
  {
    Filter(programs, (p: LegacyProgram) => p.id != pid)
  }

  /** Removing a program id from a concatenation removes it from each part in turn; one program stays exactly when its id differs. */
  lemma WithoutProgramAppend(a: seq<LegacyProgram>, b: seq<LegacyProgram>, pid: Id)
    ensures WithoutProgram(a + b, pid) == WithoutProgram(a, pid) + WithoutProgram(b, pid)
    ensures forall x :: WithoutProgram([x], pid) == if x.id != pid then [x] else []
  {
    FilterAppend(a, b, (p: LegacyProgram) => p.id != pid);
  }

  /**
   * `delete_program`: refused with at most one program; otherwise every
   * program with that id goes, and a deleted active program hands over to
   * the first remaining one (or to none).
   */
  function DeleteProgram(s: LegacyState, pid: Id): (r: (bool, LegacyState))
    ensures !r.0 <==> |s.programs| <= 1
    ensures !r.0 ==> r.1 == s
    ensures r.0 ==> r.1.workoutHistory == s.workoutHistory && r.1.userSetupComplete == s.userSetupComplete
    ensures r.0 ==> forall i :: 0 <= i < |r.1.programs| ==> r.1.programs[i].id != pid
    ensures r.0 ==> forall i :: 0 <= i < |s.programs| && s.programs[i].id != pid ==> s.programs[i] in r.1.programs
    ensures r.0 && s.activeProgramId != Some(pid) ==> r.1.activeProgramId == s.activeProgramId
    ensures r.0 && s.activeProgramId == Some(pid) ==>
              r.1.activeProgramId == (if |r.1.programs| > 0 then Some(r.1.programs[0].id) else None)
    ensures r.0 ==> r.1.programs == WithoutProgram(s.programs, pid)
    ensures r.0 && s.activeProgramId == Some(pid) ==>
              var m := FirstIndex(s.programs, (p: LegacyProgram) => p.id != pid);
              r.1.activeProgramId == if m.Some? then Some(s.programs[m.value].id) else None
  {
    if |s.programs| <= 1 then (false, s)
    else
      FilterHead(s.programs, (p: LegacyProgram) => p.id != pid);
      var remaining := WithoutProgram(s.programs, pid);
      var active := if s.activeProgramId == Some(pid) then
                      (if |remaining| > 0 then Some(remaining[0].id) else None)
                    else s.activeProgramId;
      (true, s.(programs := remaining, activeProgramId := active))
  }

  /**
   * Deleting an id that no program has still reports success and keeps every
   * program; a dangling active id equal to it moves to the first program.
   */
  lemma DeletingAbsentProgramSucceeds(s: LegacyState, pid: Id)
    requires |s.programs| > 1
    requires forall i :: 0 <= i < |s.programs| ==> s.programs[i].id != pid
    ensures DeleteProgram(s, pid).0 && DeleteProgram(s, pid).1.programs == s.programs
    ensures s.activeProgramId == Some(pid) ==> DeleteProgram(s, pid).1.activeProgramId == Some(s.programs[0].id)
  {
    assert WithoutProgram(s.programs, pid) == s.programs;
  }

  /** `select_program`. */
  function SelectProgram(s: LegacyState, pid: Id): (r: LegacyState)
    ensures r.activeProgramId == Some(pid) && r.programs == s.programs && r.workoutHistory == s.workoutHistory
    ensures r.userSetupComplete == s.userSetupComplete
  {
    s.(activeProgramId := Some(pid))
  }

  /** Program `i` with its exercise list replaced; everything else as it was. */
  function WithExercises(s: LegacyState, i: nat, exercises: seq<LegacyExercise>): (r: LegacyState)
    requires i < |s.programs|
    ensures |r.programs| == |s.programs|
    ensures r.programs[i] == s.programs[i].(exercises := exercises)
    ensures forall k :: 0 <= k < |s.programs| && k != i ==> r.programs[k] == s.programs[k]
    ensures r.workoutHistory == s.workoutHistory && r.activeProgramId == s.activeProgramId
    ensures r.userSetupComplete == s.userSetupComplete
  {
    s.(programs := s.programs[i := s.programs[i].(exercises := exercises)])
  }

  /** `add_exercise_to_program`, with `newId` for the clock-derived id: appended with no history and no target. */
  function AddExercise(s: LegacyState, name: string, newId: Id): (r: LegacyState)
    ensures ActiveIndex(s).None? ==> r == s
    ensures ActiveIndex(s).Some? ==>
              var i := ActiveIndex(s).value;
              r == WithExercises(s, i, s.programs[i].exercises + [LegacyExercise(newId, name, [], None)])
  {
    match ActiveIndex(s)
    case None => s
    case Some(i) => WithExercises(s, i, s.programs[i].exercises + [LegacyExercise(newId, name, [], None)])
  }

  /** The exercises whose id differs from `exerciseId`, in order. */
  function WithoutExercise(exercises: seq<LegacyExercise>, exerciseId: Id): (r: seq<LegacyExercise>)
    ensures |r| <= |exercises|
    ensures forall i :: 0 <= i < |r| ==> r[i] in exercises && r[i].id != exerciseId
    ensures forall i :: 0 <= i < |exercises| && exercises[i].id != exerciseId ==> exercises[i] in r
  {
    Filter(exercises, (e: LegacyExercise) => e.id != exerciseId)
  }

  /** Removing an exercise id from a concatenation removes it from each part in turn; one exercise stays exactly when its id differs. */
  lemma WithoutExerciseAppend(a: seq<LegacyExercise>, b: seq<LegacyExercise>, exerciseId: Id)
    ensures WithoutExercise(a + b, exerciseId) == WithoutExercise(a, exerciseId) + WithoutExercise(b, exerciseId)
    ensures forall x :: WithoutExercise([x], exerciseId) == if x.id != exerciseId then [x] else []
  {
    FilterAppend(a, b, (e: LegacyExercise) => e.id != exerciseId);
  }

  /** `delete_exercise`: the exercise leaves the active program only. */
  function DeleteExercise(s: LegacyState, exerciseId: Id): (r: LegacyState)
    ensures ActiveIndex(s).None? ==> r == s
    ensures ActiveIndex(s).Some? ==>
              var i := ActiveIndex(s).value;
              r == WithExercises(s, i, WithoutExercise(s.programs[i].exercises, exerciseId))
  {
    match ActiveIndex(s)
    case None => s
    case Some(i) => WithExercises(s, i, WithoutExercise(s.programs[i].exercises, exerciseId))
  }

  // ---------------------------------------------------------------------------
  // delete_history_session

  /** The history without the sessions dated `date`, in order. */
  function WithoutDate(history: seq<HistoryEntry>, date: string): (r: seq<HistoryEntry>)
    ensures |r| <= |history|
    ensures forall n :: 0 <= n < |r| ==> r[n] in history && r[n].date != date
    ensures forall n :: 0 <= n < |history| && history[n].date != date ==> history[n] in r
  {
    Filter(history, (h: HistoryEntry) => h.date != date)
  }

  /** Removing a date from a concatenation removes it from each part in turn; one entry stays exactly when its date differs. */
  lemma WithoutDateAppend(a: seq<HistoryEntry>, b: seq<HistoryEntry>, date: string)
    ensures WithoutDate(a + b, date) == WithoutDate(a, date) + WithoutDate(b, date)
    ensures forall x :: WithoutDate([x], date) == if x.date != date then [x] else []
  {
    FilterAppend(a, b, (h: HistoryEntry) => h.date != date);
  }

  /** An exercise recorded in `session` loses every history entry bearing the session's date. */
  function Pruned(e: LegacyExercise, session: WorkoutSession): (r: LegacyExercise)
    ensures r.id == e.id && r.name == e.name && r.nextTarget == e.nextTarget
    ensures Models.Contains(session, e.id) ==> r.history == WithoutDate(e.history, session.date)
    ensures !Models.Contains(session, e.id) ==> r == e
  {
    if Models.Contains(session, e.id) then e.(history := WithoutDate(e.history, session.date)) else e
  }

  function PrunedProgram(p: LegacyProgram, session: WorkoutSession): (r: LegacyProgram)
    ensures r.id == p.id && r.name == p.name && r.kind == p.kind && |r.exercises| == |p.exercises|
    ensures forall j :: 0 <= j < |p.exercises| ==> r.exercises[j] == Pruned(p.exercises[j], session)
  {
    p.(exercises := seq(|p.exercises|, j requires 0 <= j < |p.exercises| => Pruned(p.exercises[j], session)))
  }

  /**
   * `delete_history_session`: an unknown id changes nothing; otherwise every
   * session with that id leaves the history and, in every program, each
   * exercise the first such session recorded drops its history entries of
   * that date. Targets are not recomputed.
   */
  function DeleteHistorySession(s: LegacyState, sessionId: Id): (r: LegacyState)
    ensures HistoryRules.SessionIndex(s.workoutHistory, sessionId).None? ==> r == s
    ensures HistoryRules.SessionIndex(s.workoutHistory, sessionId).Some? ==>
              var session := s.workoutHistory[HistoryRules.SessionIndex(s.workoutHistory, sessionId).value];
              r.workoutHistory == HistoryRules.WithoutSession(s.workoutHistory, sessionId) &&
              |r.programs| == |s.programs| &&
              forall i :: 0 <= i < |s.programs| ==> r.programs[i] == PrunedProgram(s.programs[i], session)
    ensures r.activeProgramId == s.activeProgramId && r.userSetupComplete == s.userSetupComplete
  {
    match HistoryRules.SessionIndex(s.workoutHistory, sessionId)
    case None => s
    case Some(k) =>
      var session := s.workoutHistory[k];
      s.(workoutHistory := HistoryRules.WithoutSession(s.workoutHistory, sessionId),
         programs := seq(|s.programs|, i requires 0 <= i < |s.programs| => PrunedProgram(s.programs[i], session)))
  }

  /** The loops of `delete_history_session` over every program and every exercise. */
  method PruneHistories(programs: seq<LegacyProgram>, session: WorkoutSession) returns (r: seq<LegacyProgram>)
    ensures |r| == |programs|
    ensures forall i :: 0 <= i < |programs| ==> r[i] == PrunedProgram(programs[i], session)
  {
    r := [];
    var i := 0;
    while i < |programs|
      invariant 0 <= i <= |programs|
      invariant |r| == i
      invariant forall m :: 0 <= m < i ==> r[m] == PrunedProgram(programs[m], session)
    {
      var p := programs[i];
      var exercises: seq<LegacyExercise> := [];
      var j := 0;
      while j < |p.exercises|
        invariant 0 <= j <= |p.exercises|
        invariant |exercises| == j
        invariant forall n :: 0 <= n < j ==> exercises[n] == Pruned(p.exercises[n], session)
      {
        var e := p.exercises[j];
        if Models.Contains(session, e.id) {
          e := e.(history := WithoutDate(e.history, session.date));
        }
        exercises := exercises + [e];
        j := j + 1;
      }
      assert p.(exercises := exercises) == PrunedProgram(p, session);
      r := r + [p.(exercises := exercises)];
      i := i + 1;
    }
  }

  /**
   * Deleting a session keeps every program, exercise and target in place and
   * only shortens histories; no session with that id is left.
   */
  lemma DeletedSessionKeepsTargets(s: LegacyState, sessionId: Id, i: nat, j: nat)
    requires i < |s.programs| && j < |s.programs[i].exercises|
    ensures var r := DeleteHistorySession(s, sessionId);
            i < |r.programs| && |r.programs[i].exercises| == |s.programs[i].exercises| &&
            r.programs[i].exercises[j].id == s.programs[i].exercises[j].id &&
            r.programs[i].exercises[j].nextTarget == s.programs[i].exercises[j].nextTarget &&
            |r.programs[i].exercises[j].history| <= |s.programs[i].exercises[j].history|
    ensures forall n :: 0 <= n < |DeleteHistorySession(s, sessionId).workoutHistory| ==>
              DeleteHistorySession(s, sessionId).workoutHistory[n].id != sessionId
  {
    var r := DeleteHistorySession(s, sessionId);
    if HistoryRules.SessionIndex(s.workoutHistory, sessionId).Some? {
      assert r.programs[i] == PrunedProgram(s.programs[i], s.workoutHistory[HistoryRules.SessionIndex(s.workoutHistory, sessionId).value]);
    }
  }

  /**
   * Entries are matched by date, not by session: an exercise of the deleted
   * session also loses the entry another session left on the same date,
   * although that session stays in the history.
   */
  lemma SameDateEntriesGoToo(s: LegacyState, sessionId: Id, i: nat, j: nat, n: nat)
    requires HistoryRules.SessionIndex(s.workoutHistory, sessionId).Some?
    requires i < |s.programs| && j < |s.programs[i].exercises|
    requires n < |s.programs[i].exercises[j].history|
    requires var session := s.workoutHistory[HistoryRules.SessionIndex(s.workoutHistory, sessionId).value];
             Models.Contains(session, s.programs[i].exercises[j].id) &&
             s.programs[i].exercises[j].history[n].date == session.date
    ensures s.programs[i].exercises[j].history[n] !in DeleteHistorySession(s, sessionId).programs[i].exercises[j].history
  {
    var session := s.workoutHistory[HistoryRules.SessionIndex(s.workoutHistory, sessionId).value];
    var r := DeleteHistorySession(s, sessionId);
    assert r.programs[i] == PrunedProgram(s.programs[i], session);
    assert r.programs[i].exercises[j] == Pruned(s.programs[i].exercises[j], session);
  }
}
