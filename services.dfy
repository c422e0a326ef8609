/**
 * `WorkoutService`: the commands the screens call, over the in-memory
 * application state and the session draft it shares with them. Persisting
 * the state after a command is a no-op here.
 */
module Services {
  import opened Wrappers
  import opened Types
  import opened Models
  import opened Drafts
  import opened Progression
  import opened SessionStates
  import opened ServiceRules
  import opened HistoryRules

  class WorkoutService {
    /** The record the storage object holds. */
    var data: AppState
    /** The draft shared with the workout screen. */
    const session: SessionState

    predicate Valid()
      reads this, session
    {
      session.Valid()
    }

    constructor(initial: AppState, draft: SessionState)
      requires draft.Valid()
      ensures data == initial && session == draft
      ensures Valid()
    {
      data := initial;
      session := draft;
    }

    /** `create_new_program`: appended and made active with an empty draft, unless the name is over 30 characters. */
    method CreateNewProgram(name: string, kind: ProgressionType, newId: Id)
      requires Valid()
      modifies this, session
      ensures Valid()
      ensures data == CreateProgram(old(data), name, kind, newId)
      ensures |name| <= MaxProgramName ==> session.state == []
      ensures |name| > MaxProgramName ==> session.state == old(session.state)
    {
      if |name| <= MaxProgramName {
        var program := Program(newId, name, kind, []);
        data := data.(programs := data.programs + [program], activeProgramId := Some(newId));
        session.InitForProgram(Some(program));
        assert SeedIds(Some(program)) == [];
      }
    }

    /** `delete_program`: refused with at most one program; otherwise the draft is reseeded for the active program. */
    method DeleteProgram(programId: Id) returns (ok: bool)
      requires Valid()
      modifies this, session
      ensures Valid()
      ensures (ok, data) == ServiceRules.DeleteProgram(old(data), programId)
      ensures ok ==> session.state == Seed(SeedIds(GetActiveProgram(data)))
      ensures !ok ==> session.state == old(session.state)
    {
      if |data.programs| <= 1 {
        return false;
      }
      var remaining := WithoutProgram(data.programs, programId);
      data := data.(programs := remaining);
      if data.activeProgramId == Some(programId) {
        data := data.(activeProgramId := if |remaining| > 0 then Some(remaining[0].id) else None);
      }
      session.InitForProgram(GetActiveProgram(data));
      return true;
    }

    /** `select_program`: the id becomes active and the draft is reseeded for it. */
    method SelectProgram(programId: Id)
      requires Valid()
      modifies this, session
      ensures Valid()
      ensures data == ServiceRules.SelectProgram(old(data), programId)
      ensures session.state == Seed(SeedIds(GetActiveProgram(data)))
    {
      data := data.(activeProgramId := Some(programId));
      session.InitForProgram(GetActiveProgram(data));
    }

    /** `add_exercise_to_active_program`: appended without a target, with an empty draft list. */
    method AddExerciseToActiveProgram(name: string, newId: Id)
      requires Valid()
      modifies this, session
      ensures Valid()
      ensures data == AddExercise(old(data), name, newId)
      ensures ActiveIndex(old(data)).None? ==> session.state == old(session.state)
      ensures ActiveIndex(old(data)).Some? ==>
                session.state == if Lookup(old(session.state), newId).Some? then old(session.state)
                                 else Put(old(session.state), newId, [])
    {
      var active := ActiveIndex(data);
      if active.None? {
        return;
      }
      var i := active.value;
      data := WithExercises(data, i, data.programs[i].exercises + [Exercise(newId, name, None)]);
      if Lookup(session.state, newId).None? {
        session.state := Put(session.state, newId, []);
      }
    }

    /** `delete_exercise_from_active`: gone from the active program and from the draft. */
    method DeleteExerciseFromActive(exerciseId: Id)
      requires Valid()
      modifies this, session
      ensures Valid()
      ensures data == DeleteExercise(old(data), exerciseId)
      ensures ActiveIndex(old(data)).None? ==> session.state == old(session.state)
      ensures ActiveIndex(old(data)).Some? ==> session.state == Remove(old(session.state), exerciseId)
    {
      var active := ActiveIndex(data);
      if active.None? {
        return;
      }
      var i := active.value;
      data := WithExercises(data, i, WithoutExercise(data.programs[i].exercises, exerciseId));
      session.state := Remove(session.state, exerciseId);
    }

    /** `init_current_workout`. */
    method InitCurrentWorkout()
      requires Valid()
      modifies session
      ensures Valid()
      ensures session.state == Seed(SeedIds(GetActiveProgram(data)))
    {
      session.InitForProgram(GetActiveProgram(data));
    }

    /**
     * `save_workout`, with `sessionId` and `date` for the clock readings:
     * the target loop item by item, then one history entry and a fresh draft.
     * A raise on an item ends the command with the earlier updates in place.
     */
    method SaveWorkout(items: seq<SaveItem>, sessionId: Id, date: string) returns (outcome: SaveOutcome)
      requires Valid()
      modifies this, session
      ensures Valid()
      ensures SaveResult(data, outcome) == ServiceRules.SaveWorkout(old(data), items, sessionId, date)
      ensures outcome == Saved ==> session.state == Seed(SeedIds(GetActiveProgram(data)))
      ensures outcome != Saved ==> session.state == old(session.state)
    {
      var active := ActiveIndex(data);
      if active.None? {
        return NoActiveProgram;
      }
      var i := active.value;
      var p := data.programs[i];
      var progress := TargetLoop(p.exercises, p.kind, items);
      data := WithExercises(data, i, progress.exercises);
      if progress.raised {
        return Raised;
      }
      data := data.(workoutHistory := data.workoutHistory + [SessionRecord(p, items, sessionId, date)]);
      InitCurrentWorkout();
      return Saved;
    }

    /** The target-update loop of `save_workout`: item by item, stopping at the first raise. */
    static method TargetLoop(exercises: seq<Exercise>, kind: ProgressionType, items: seq<SaveItem>) returns (r: Progress)
      ensures r == ApplyItems(exercises, kind, items)
    {
      var current := exercises;
      var k := 0;
      while k < |items|
        invariant 0 <= k <= |items|
        invariant ApplyItems(exercises, kind, items[..k]) == Progress(current, false)
      {
        ApplyItemsStep(exercises, kind, items, k);
        var next := ApplyItem(current, kind, items[k]);
        if next.None? {
          RaisedIsFinal(exercises, kind, items, k + 1);
          return Progress(current, true);
        }
        current := next.value;
        k := k + 1;
      }
      assert items[..k] == items;
      return Progress(current, false);
    }

    /** `generate_workout_summary`: read-only, stopping at the first raise. */
    method GenerateWorkoutSummary(items: seq<SaveItem>) returns (r: SummaryResult)
      ensures r == Summarize(data, items)
    {
      r := SummaryLoop(data, items);
    }

    /** The loop of `generate_workout_summary` over the items, against the state `s`. */
    static method SummaryLoop(s: AppState, items: seq<SaveItem>) returns (r: SummaryResult)
      ensures r == Summarize(s, items)
    {
      var allGoals := true;
      var details: seq<Detail> := [];
      var k := 0;
      while k < |items|
        invariant 0 <= k <= |items|
        invariant Summarize(s, items[..k]) == Summarized(Summary(allGoals, details))
      {
        var raised;
        raised, allGoals, details := SummaryItem(s, items, k, allGoals, details);
        if raised {
          return SummaryRaised;
        }
        k := k + 1;
      }
      assert items[..k] == items;
      return Summarized(Summary(allGoals, details));
    }

    /** One pass of the summary loop: item `k` is skipped, raises, or adds its detail. */
    static method SummaryItem(s: AppState, items: seq<SaveItem>, k: nat, allGoals: bool, details: seq<Detail>)
      returns (raised: bool, goals: bool, extended: seq<Detail>)
      requires k < |items|
      requires Summarize(s, items[..k]) == Summarized(Summary(allGoals, details))
      ensures raised ==> Summarize(s, items) == SummaryRaised
      ensures !raised ==> Summarize(s, items[..k + 1]) == Summarized(Summary(goals, extended))
    {
      var preview := PreviewItem(s, items[k]);
      match preview {
        case Skipped =>
          SummarySkipped(s, items, k, Summary(allGoals, details));
          return false, allGoals, details;
        case Raises =>
          SummarizeStep(s, items, k);
          SummaryRaisedIsFinal(s, items, k + 1);
          return true, allGoals, details;
        case Shown(d) =>
          SummaryShown(s, items, k, Summary(allGoals, details), d);
          goals := allGoals;
          if d.status == Missed {
            goals := false;
          }
          return false, goals, details + [d];
      }
    }

    /**
     * `delete_history_session`: an unknown id changes nothing; otherwise the
     * session goes and each active exercise is retargeted from what remains.
     */
    method DeleteHistorySession(sessionId: Id)
      modifies this
      ensures data == HistoryRules.DeleteHistorySession(old(data), sessionId)
    {
      if SessionIndex(data.workoutHistory, sessionId).None? {
        return;
      }
      data := data.(workoutHistory := WithoutSession(data.workoutHistory, sessionId));
      var remaining := data;
      var active := ActiveIndex(data);
      if active.None? {
        return;
      }
      var i := active.value;
      var p := data.programs[i];
      var exercises := RetargetLoop(remaining, p.exercises, p.kind);
      data := WithExercises(remaining, i, exercises);
    }

    /** The retargeting loop of `delete_history_session`: each exercise's target recomputed in place. */
    static method RetargetLoop(s: AppState, exercises: seq<Exercise>, kind: ProgressionType) returns (r: seq<Exercise>)
      ensures r == RetargetAll(s, exercises, kind)
    {
      r := exercises;
      var k := 0;
      while k < |exercises|
        invariant 0 <= k <= |exercises|
        invariant |r| == |exercises|
        invariant forall m :: 0 <= m < k ==> r[m] == exercises[m].(nextTarget := Recomputed(s, exercises[m], kind))
        invariant forall m :: k <= m < |exercises| ==> r[m] == exercises[m]
      {
        r := r[k := r[k].(nextTarget := Recomputed(s, r[k], kind))];
        k := k + 1;
      }
    }

    /** `get_progress_chart_data`: records collected session by session, sorted by date, one 1RM per record. */
    method GetProgressChartData(exerciseId: Id) returns (r: Option<Chart>)
      ensures r == ChartData(data, exerciseId)
    {
      var points := CollectPoints(data.workoutHistory, exerciseId);
      if |points| == 0 {
        return None;
      }
      var sorted := SortByDate(points);
      var labels := seq(|sorted|, m requires 0 <= m < |sorted| => sorted[m].date);
      var normal := seq(|sorted|, m requires 0 <= m < |sorted| => Working(sorted[m].sets));
      var values := OneRepMaxes(normal);
      var chart := ChartData(data, exerciseId).value;
      assert chart.labels == labels;
      assert chart.data == values;
      return Some(Chart(labels, values));
    }

    /** The value comprehension of `get_progress_chart_data`: the 1RM of each record's list of normal sets. */
    static method OneRepMaxes(normal: seq<seq<WorkSet>>) returns (values: seq<real>)
      ensures |values| == |normal|
      ensures forall m :: 0 <= m < |normal| ==> values[m] == MaxEpley(normal[m])
    {
      values := [];
      var n := 0;
      while n < |normal|
        invariant 0 <= n <= |normal|
        invariant |values| == n
        invariant forall m :: 0 <= m < n ==> values[m] == MaxEpley(normal[m])
      {
        var orm := CalculateOneRepMax(normal[n]);
        values := values + [orm];
        n := n + 1;
      }
    }

    /** `reset_all_data`: the empty state and an empty draft. */
    method ResetAllData()
      requires Valid()
      modifies this, session
      ensures Valid()
      ensures data == EmptyState && session.state == []
    {
      data := EmptyState;
      session.Reset();
    }

    /** `add_set_to_workout`. */
    method AddSetToWorkout(exerciseId: Id, setId: Id)
      requires Valid()
      modifies session
      ensures Valid()
      ensures session.state == Put(old(session.state), exerciseId, Get(old(session.state), exerciseId) + [BlankSet(setId)])
    {
      session.AddSet(exerciseId, setId);
    }

    /** `delete_set_from_workout`. */
    method DeleteSetFromWorkout(exerciseId: Id, setId: Id)
      requires Valid()
      modifies session
      ensures Valid()
      ensures session.state == Put(old(session.state), exerciseId, WithoutSet(Get(old(session.state), exerciseId), setId))
    {
      session.DeleteSet(exerciseId, setId);
    }

    /** `update_set_in_workout`. */
    method UpdateSetInWorkout(exerciseId: Id, setId: Id, field: Field, value: string)
      requires Valid()
      modifies session
      ensures Valid()
      ensures Lookup(old(session.state), exerciseId).None? ==> session.state == old(session.state)
      ensures Lookup(old(session.state), exerciseId).Some? ==>
                session.state == Put(old(session.state), exerciseId, SetField(Get(old(session.state), exerciseId), setId, field, value))
    {
      session.UpdateSet(exerciseId, setId, field, value);
    }

    /** `update_set_error_state`. */
    method UpdateSetErrorState(exerciseId: Id, setId: Id, field: Field, hasError: bool)
      requires Valid()
      modifies session
      ensures Valid()
      ensures Lookup(old(session.state), exerciseId).None? ==> session.state == old(session.state)
      ensures Lookup(old(session.state), exerciseId).Some? ==>
                session.state == Put(old(session.state), exerciseId, SetError(Get(old(session.state), exerciseId), setId, field, hasError))
    {
      session.UpdateSetError(exerciseId, setId, field, hasError);
    }

    /** `has_validation_errors`. */
    method HasValidationErrors() returns (r: bool)
      ensures r <==> AnyFlagged(session.state)
    {
      r := session.HasValidationErrors();
    }
  }
}
