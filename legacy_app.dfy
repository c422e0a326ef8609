/**
 * The intermediate legacy `ProgressiveOverloadLogic` (the copy under
 * `app/logic`): the screens hand it the saved items, it stores targets on the
 * active program's exercises with the legacy rules, previews them read-only in
 * the workout summary, and keeps the draft with per-field error flags.
 */
module LegacyApp {
  import opened Wrappers
  import opened Types
  import opened Drafts
  import opened LegacyRules
  import opened LegacyData
  import SessionStates
  import Models
  import Progression
  import HistoryRules

  /** The longest program name `create_new_program` accepts. */
  const MaxNameLength := 30

  /** `create_new_program`: a name over 30 characters changes nothing. */
  function CreateProgram(s: LegacyState, name: string, kind: ProgressionType, newId: Id): (r: LegacyState)
    ensures |name| > MaxNameLength ==> r == s
    ensures |name| <= MaxNameLength ==> r == AppendProgram(s, name, kind, newId)
  {
    if |name| <= MaxNameLength then AppendProgram(s, name, kind, newId) else s
  }

  /** One saved item: the exercise's id, name and program id, and the sets the screen parsed. */
  datatype LegacyItem = LegacyItem(exerciseId: Id, exerciseName: string, programId: Id, newSets: seq<WorkSet>)

  // ---------------------------------------------------------------------------
  // save_workout

  /**
   * One item of the target loop: an item with normal sets whose exercise is
   * in the list gets its target set when absent and replaced on a met goal;
   * nothing else changes.
   */
  function ApplyItem(exercises: seq<LegacyExercise>, kind: ProgressionType, item: LegacyItem): (r: seq<LegacyExercise>)
    ensures |r| == |exercises|
    ensures forall j :: 0 <= j < |r| ==>
              r[j].id == exercises[j].id && r[j].name == exercises[j].name && r[j].history == exercises[j].history
    ensures Working(item.newSets) == [] || ExerciseIndex(exercises, item.exerciseId).None? ==> r == exercises
    ensures Working(item.newSets) != [] && ExerciseIndex(exercises, item.exerciseId).Some? ==>
              var j := ExerciseIndex(exercises, item.exerciseId).value;
              r[j].nextTarget == Retarget(exercises[j].nextTarget, Working(item.newSets), kind) &&
              forall m :: 0 <= m < |r| && m != j ==> r[m] == exercises[m]
  {
    var ws := Working(item.newSets);
    if ws == [] then exercises
    else match ExerciseIndex(exercises, item.exerciseId)
      case None => exercises
      case Some(j) => exercises[j := exercises[j].(nextTarget := Retarget(exercises[j].nextTarget, ws, kind))]
  }

  /** An item names the exercise and carries normal sets. */
  predicate Touches(item: LegacyItem, id: Id) {
    item.exerciseId == id && Working(item.newSets) != []
  }

  /** The whole target loop, item by item. */
  function ApplyItems(exercises: seq<LegacyExercise>, kind: ProgressionType, items: seq<LegacyItem>): (r: seq<LegacyExercise>)
    ensures |r| == |exercises|
    ensures forall j :: 0 <= j < |r| ==>
              r[j].id == exercises[j].id && r[j].name == exercises[j].name && r[j].history == exercises[j].history
    ensures forall j :: 0 <= j < |r| && exercises[j].nextTarget.Some? ==> r[j].nextTarget.Some?
    ensures forall j :: 0 <= j < |r| && (forall k :: 0 <= k < |items| ==> !Touches(items[k], exercises[j].id)) ==>
              r[j] == exercises[j]
    decreases |items|
  {
    if items == [] then exercises
    else
      var before := ApplyItems(exercises, kind, items[..|items| - 1]);
      assert forall k :: 0 <= k < |items| - 1 ==> items[..|items| - 1][k] == items[k];
      ApplyItem(before, kind, items[|items| - 1])
  }

  /** The target loop after `k + 1` items is one more item applied to the loop after `k`. */
  lemma ApplyItemsStep(exercises: seq<LegacyExercise>, kind: ProgressionType, items: seq<LegacyItem>, k: nat)
    requires k < |items|
    ensures ApplyItems(exercises, kind, items[..k + 1]) == ApplyItem(ApplyItems(exercises, kind, items[..k]), kind, items[k])
  {
    assert items[..k + 1][..k] == items[..k];
  }

  /** The session's records: one per item, in order, whether or not it changed a target. */
  function Records(items: seq<LegacyItem>): (r: seq<ExerciseResult>)
    ensures |r| == |items|
    ensures forall k :: 0 <= k < |items| ==>
              r[k] == ExerciseResult(items[k].exerciseId, items[k].exerciseName, items[k].newSets)
  {
    seq(|items|, k requires 0 <= k < |items| =>
      ExerciseResult(items[k].exerciseId, items[k].exerciseName, items[k].newSets))
  }

  /**
   * `save_workout`, with `sessionId` and `date` for the clock readings: no
   * active program, no change; otherwise the active program's targets move
   * and exactly one session recording every item is appended.
   */
  function Saved(s: LegacyState, items: seq<LegacyItem>, sessionId: Id, date: string): (r: LegacyState)
    ensures ActiveIndex(s).None? ==> r == s
    ensures ActiveIndex(s).Some? ==>
              var i := ActiveIndex(s).value;
              var p := s.programs[i];
              |r.programs| == |s.programs| &&
              r.programs[i] == p.(exercises := ApplyItems(p.exercises, p.kind, items)) &&
              (forall k :: 0 <= k < |s.programs| && k != i ==> r.programs[k] == s.programs[k]) &&
              r.workoutHistory == s.workoutHistory + [WorkoutSession(sessionId, date, p.id, p.name, Records(items))] &&
              r.activeProgramId == s.activeProgramId && r.userSetupComplete == s.userSetupComplete
  {
    match ActiveIndex(s)
    case None => s
    case Some(i) =>
      var p := s.programs[i];
      var session := WorkoutSession(sessionId, date, p.id, p.name, Records(items));
      WithExercises(s, i, ApplyItems(p.exercises, p.kind, items)).(workoutHistory := s.workoutHistory + [session])
  }

  // ---------------------------------------------------------------------------
  // generate_workout_summary

  /**
   * The summary line of one item: skipped without normal sets, without the
   * item's program or without the exercise in it; otherwise the verdict on
   * that program exercise's stored target.
   */
  function Preview(s: LegacyState, item: LegacyItem): (d: Option<Detail>)
    ensures d.Some? <==> Working(item.newSets) != [] && ProgramIndex(s.programs, item.programId).Some? &&
                         ExerciseIndex(s.programs[ProgramIndex(s.programs, item.programId).value].exercises,
                                       item.exerciseId).Some?
  {
    var ws := Working(item.newSets);
    if ws == [] then None
    else match ProgramIndex(s.programs, item.programId)
      case None => None
      case Some(i) =>
        var p := s.programs[i];
        match ExerciseIndex(p.exercises, item.exerciseId)
        case None => None
        case Some(j) => Some(Judge(p.exercises[j].name, p.exercises[j].nextTarget, ws, p.kind))
  }

  /** `generate_workout_summary`: read-only; `all_goals_achieved` is false exactly when some line missed. */
  function Summarize(s: LegacyState, items: seq<LegacyItem>): (r: Summary)
    ensures r.allGoalsAchieved <==> NoneMissed(r.details)
    ensures |r.details| <= |items|
    ensures r.details == Details(Previews(s, items))
    ensures forall k :: 0 <= k < |items| && Preview(s, items[k]).Some? ==> Preview(s, items[k]).value in r.details
    ensures forall m :: 0 <= m < |r.details| ==> exists k :: 0 <= k < |items| && Preview(s, items[k]) == Some(r.details[m])
  {
    Summarized(Previews(s, items))
  }

  /** The optional summary line of each item, in item order. */
  function Previews(s: LegacyState, items: seq<LegacyItem>): (r: seq<Option<Detail>>)
    ensures |r| == |items|
    ensures forall k :: 0 <= k < |items| ==> r[k] == Preview(s, items[k])
  {
    seq(|items|, k requires 0 <= k < |items| => Preview(s, items[k]))
  }

  /**
   * For an item of the active program, the summary shows exactly the target
   * saving that item alone stores.
   */
  lemma PreviewMatchesCommit(s: LegacyState, item: LegacyItem, sessionId: Id, date: string)
    requires ActiveIndex(s).Some? && item.programId == s.programs[ActiveIndex(s).value].id
    requires Preview(s, item).Some?
    ensures var i := ActiveIndex(s).value;
            var j := ExerciseIndex(s.programs[i].exercises, item.exerciseId).value;
            var r := Saved(s, [item], sessionId, date);
            j < |r.programs[i].exercises| && r.programs[i].exercises[j].nextTarget == Some(Preview(s, item).value.shown)
  {
    var i := ActiveIndex(s).value;
    var p := s.programs[i];
    assert ProgramIndex(s.programs, item.programId) == Some(i);
    var j := ExerciseIndex(p.exercises, item.exerciseId).value;
    assert [item][..0] == [];
    assert ApplyItems(p.exercises, p.kind, [item]) == ApplyItem(p.exercises, p.kind, item);
    JudgeShowsRetarget(p.exercises[j].name, p.exercises[j].nextTarget, Working(item.newSets), p.kind);
  }

  /** Exercise `j` is the same before and after items that name other exercises. */
  lemma {:induction false} SlotUntouched(exercises: seq<LegacyExercise>, kind: ProgressionType, items: seq<LegacyItem>,
                                         j: nat, lo: nat, hi: nat)
    requires lo <= hi <= |items| && j < |exercises|
    requires forall m :: lo <= m < hi ==> items[m].exerciseId != exercises[j].id
    ensures ApplyItems(exercises, kind, items[..hi])[j] == ApplyItems(exercises, kind, items[..lo])[j]
    decreases hi - lo
  {
    if lo < hi {
      var n := hi - 1;
      SlotUntouched(exercises, kind, items, j, lo, n);
      ApplyItemsStep(exercises, kind, items, n);
      var before := ApplyItems(exercises, kind, items[..n]);
      assert before[j].id == exercises[j].id != items[n].exerciseId;
      var found := ExerciseIndex(before, items[n].exerciseId);
      assert found.Some? ==> found.value != j;
      assert ApplyItem(before, kind, items[n])[j] == before[j];
    }
  }

  /** Two exercise lists with the same ids find an id at the same place. */
  lemma SameIdsSameIndex(a: seq<LegacyExercise>, b: seq<LegacyExercise>, id: Id)
    requires |a| == |b|
    requires forall k :: 0 <= k < |a| ==> a[k].id == b[k].id
    ensures ExerciseIndex(a, id) == ExerciseIndex(b, id)
  {
    if ExerciseIndex(a, id).Some? {
      assert b[ExerciseIndex(a, id).value].id == id;
    }
    if ExerciseIndex(b, id).Some? {
      assert a[ExerciseIndex(b, id).value].id == id;
    }
  }

  /**
   * The summary shows what saving the same list stores: for items of the
   * active program that name distinct exercises, every item the summary
   * shows gets exactly the target shown.
   */
  lemma SummaryMatchesSave(s: LegacyState, items: seq<LegacyItem>, sessionId: Id, date: string, k: nat)
    requires ActiveIndex(s).Some?
    requires forall n :: 0 <= n < |items| ==> items[n].programId == s.programs[ActiveIndex(s).value].id
    requires forall n, m :: 0 <= n < m < |items| ==> items[n].exerciseId != items[m].exerciseId
    requires k < |items| && Preview(s, items[k]).Some?
    ensures var i := ActiveIndex(s).value;
            var j := ExerciseIndex(s.programs[i].exercises, items[k].exerciseId);
            j.Some? &&
            Saved(s, items, sessionId, date).programs[i].exercises[j.value].nextTarget == Some(Preview(s, items[k]).value.shown)
  {
    var i := ActiveIndex(s).value;
    var p := s.programs[i];
    var item := items[k];
    assert ProgramIndex(s.programs, item.programId) == Some(i);
    var j := ExerciseIndex(p.exercises, item.exerciseId).value;
    assert items[..0] == [] && items[..|items|] == items;
    // The earlier items name other exercises, so this item meets its exercise untouched ...
    SlotUntouched(p.exercises, p.kind, items, j, 0, k);
    var before := ApplyItems(p.exercises, p.kind, items[..k]);
    SameIdsSameIndex(p.exercises, before, item.exerciseId);
    ApplyItemsStep(p.exercises, p.kind, items, k);
    JudgeShowsRetarget(p.exercises[j].name, p.exercises[j].nextTarget, Working(item.newSets), p.kind);
    // ... and the later ones leave what it stored.
    SlotUntouched(p.exercises, p.kind, items, j, k + 1, |items|);
  }

  /** A first workout on an exercise always stores a target, and a stored target is never dropped. */
  lemma SaveStoresFirstTarget(s: LegacyState, item: LegacyItem, sessionId: Id, date: string)
    requires ActiveIndex(s).Some?
    requires Working(item.newSets) != []
    requires ExerciseIndex(s.programs[ActiveIndex(s).value].exercises, item.exerciseId).Some?
    ensures var i := ActiveIndex(s).value;
            var j := ExerciseIndex(s.programs[i].exercises, item.exerciseId).value;
            var e := s.programs[i].exercises[j];
            var r := Saved(s, [item], sessionId, date);
            e.nextTarget.None? ==> r.programs[i].exercises[j].nextTarget == Some(NextTarget(Working(item.newSets), s.programs[i].kind))
  {
    var i := ActiveIndex(s).value;
    var p := s.programs[i];
    assert [item][..0] == [];
    assert ApplyItems(p.exercises, p.kind, [item]) == ApplyItem(p.exercises, p.kind, item);
  }

  // ---------------------------------------------------------------------------
  // get_progress_chart_data

  /**
   * `get_progress_chart_data`: none without records; otherwise dates
   * ascending with the legacy 1RM of each record's normal sets.
   */
  function ChartData(s: LegacyState, exerciseId: Id): (r: Option<HistoryRules.Chart>)
    ensures r.None? <==> forall i :: 0 <= i < |s.workoutHistory| ==> !Models.Contains(s.workoutHistory[i], exerciseId)
    ensures r.Some? ==>
              var sorted := HistoryRules.SortByDate(HistoryRules.Collected(s.workoutHistory, exerciseId));
              |r.value.labels| == |r.value.data| == |sorted| &&
              forall n :: 0 <= n < |sorted| ==>
                r.value.labels[n] == sorted[n].date && r.value.data[n] == MaxEstimate(Working(sorted[n].sets))
  {
    var points := HistoryRules.Collected(s.workoutHistory, exerciseId);
    if |points| == 0 then None
    else
      var sorted := HistoryRules.SortByDate(points);
      Some(HistoryRules.Chart(seq(|sorted|, n requires 0 <= n < |sorted| => sorted[n].date),
                              seq(|sorted|, n requires 0 <= n < |sorted| => MaxEstimate(Working(sorted[n].sets)))))
  }

  /** The legacy chart is the live chart of the same history: the weight guard never matters to a maximum. */
  lemma ChartMatchesLive(s: LegacyState, exerciseId: Id)
    ensures ChartData(s, exerciseId) == HistoryRules.ChartData(AppState([], s.workoutHistory, false, None), exerciseId)
  {
    var points := HistoryRules.Collected(s.workoutHistory, exerciseId);
    if |points| > 0 {
      var sorted := HistoryRules.SortByDate(points);
      var labels := seq(|sorted|, n requires 0 <= n < |sorted| => sorted[n].date);
      var legacy := seq(|sorted|, n requires 0 <= n < |sorted| => MaxEstimate(Working(sorted[n].sets)));
      var live := seq(|sorted|, n requires 0 <= n < |sorted| => Progression.MaxEpley(Working(sorted[n].sets)));
      forall n | 0 <= n < |sorted| ensures legacy[n] == live[n] {
        MaxEstimateIsMaxEpley(Working(sorted[n].sets));
      }
      assert legacy == live;
      assert ChartData(s, exerciseId) == Some(HistoryRules.Chart(labels, legacy));
      assert HistoryRules.ChartData(AppState([], s.workoutHistory, false, None), exerciseId) == Some(HistoryRules.Chart(labels, live));
    }
  }

  // ---------------------------------------------------------------------------
  // The class

  class ProgressiveOverloadLogic {
    /** `app_data`. */
    var data: LegacyState
    /** `current_workout_state`, held in the draft object. */
    const session: SessionStates.SessionState

    predicate Valid()
      reads this, session
    {
      session.Valid()
    }

    /** Construction from a loaded store: the post-load rule, then a seeded draft. */
    constructor(loaded: LegacyState)
      ensures Valid() && fresh(session)
      ensures data == AfterLoad(loaded)
      ensures session.state == Seed(SeedIds(data))
    {
      data := AfterLoad(loaded);
      session := new SessionStates.SessionState();
      new;
      session.InitForIds(SeedIds(data));
    }

    /** `init_current_workout`. */
    method InitCurrentWorkout()
      modifies session
      ensures Valid()
      ensures session.state == Seed(SeedIds(data))
    {
      session.InitForIds(SeedIds(data));
    }

    /** `create_new_program`: appended, made active and seeded, unless the name is over 30 characters. */
    method CreateNewProgram(name: string, kind: ProgressionType, newId: Id)
      requires Valid()
      modifies this, session
      ensures Valid()
      ensures data == CreateProgram(old(data), name, kind, newId)
      ensures |name| <= MaxNameLength ==> session.state == Seed(SeedIds(data))
      ensures |name| > MaxNameLength ==> session.state == old(session.state)
    {
      if |name| <= MaxNameLength {
        data := AppendProgram(data, name, kind, newId);
        InitCurrentWorkout();
      }
    }

    /** `delete_program`: refused with at most one program; otherwise the draft is reseeded. */
    method DeleteProgram(programId: Id) returns (ok: bool)
      requires Valid()
      modifies this, session
      ensures Valid()
      ensures (ok, data) == LegacyData.DeleteProgram(old(data), programId)
      ensures ok ==> session.state == Seed(SeedIds(data))
      ensures !ok ==> session.state == old(session.state)
    {
      if |data.programs| <= 1 {
        return false;
      }
      var remaining := WithoutProgram(data.programs, programId);
      data := data.(programs := remaining);
      if data.activeProgramId == Some(programId) {
        data := data.(activeProgramId := if |remaining| > 0 then Some(remaining[0].id) else None);
      }
      InitCurrentWorkout();
      return true;
    }

    /** `select_program`. */
    method SelectProgram(programId: Id)
      requires Valid()
      modifies this, session
      ensures Valid()
      ensures data == LegacyData.SelectProgram(old(data), programId)
      ensures session.state == Seed(SeedIds(data))
    {
      data := data.(activeProgramId := Some(programId));
      InitCurrentWorkout();
    }

    /** `add_exercise_to_program`: appended to the active program, with an empty draft list. */
    method AddExerciseToProgram(name: string, newId: Id)
      requires Valid()
      modifies this, session
      ensures Valid()
      ensures data == AddExercise(old(data), name, newId)
      ensures ActiveIndex(old(data)).None? ==> session.state == old(session.state)
      ensures ActiveIndex(old(data)).Some? ==>
                session.state == if Lookup(old(session.state), newId).Some? then old(session.state)
                                 else Put(old(session.state), newId, [])
    {
      var active := ActiveIndex(data);
      if active.None? {
        return;
      }
      var i := active.value;
      data := WithExercises(data, i, data.programs[i].exercises + [LegacyExercise(newId, name, [], None)]);
      if Lookup(session.state, newId).None? {
        session.state := Put(session.state, newId, []);
      }
    }

    /** `delete_exercise`: gone from the active program and from the draft. */
    method DeleteExercise(exerciseId: Id)
      requires Valid()
      modifies this, session
      ensures Valid()
      ensures data == LegacyData.DeleteExercise(old(data), exerciseId)
      ensures ActiveIndex(old(data)).None? ==> session.state == old(session.state)
      ensures ActiveIndex(old(data)).Some? ==> session.state == Remove(old(session.state), exerciseId)
    {
      var active := ActiveIndex(data);
      if active.None? {
        return;
      }
      var i := active.value;
      data := WithExercises(data, i, WithoutExercise(data.programs[i].exercises, exerciseId));
      session.state := Remove(session.state, exerciseId);
    }

    /** `add_set_to_workout`: a blank normal set at the end of the exercise's list. */
    method AddSetToWorkout(exerciseId: Id, setId: Id)
      requires Valid()
      modifies session
      ensures Valid()
      ensures session.state == Put(old(session.state), exerciseId, Get(old(session.state), exerciseId) + [BlankSet(setId)])
    {
      session.AddSet(exerciseId, setId);
    }

    /** `delete_set_from_workout`: an unknown exercise ends up with an empty list. */
    method DeleteSetFromWorkout(exerciseId: Id, setId: Id)
      requires Valid()
      modifies session
      ensures Valid()
      ensures session.state == Put(old(session.state), exerciseId, WithoutSet(Get(old(session.state), exerciseId), setId))
    {
      session.DeleteSet(exerciseId, setId);
    }

    /** `update_set_in_workout`: a missing exercise or set changes nothing. */
    method UpdateSetInWorkout(exerciseId: Id, setId: Id, field: Field, value: string)
      requires Valid()
      modifies session
      ensures Valid()
      ensures Lookup(old(session.state), exerciseId).None? ==> session.state == old(session.state)
      ensures Lookup(old(session.state), exerciseId).Some? ==>
                session.state == Put(old(session.state), exerciseId, SetField(Get(old(session.state), exerciseId), setId, field, value))
    {
      session.UpdateSet(exerciseId, setId, field, value);
    }

    /** `update_set_error_state`: the first set with that id records the flag. */
    method UpdateSetErrorState(exerciseId: Id, setId: Id, field: Field, hasError: bool)
      requires Valid()
      modifies session
      ensures Valid()
      ensures Lookup(old(session.state), exerciseId).None? ==> session.state == old(session.state)
      ensures Lookup(old(session.state), exerciseId).Some? ==>
                session.state == Put(old(session.state), exerciseId, SetError(Get(old(session.state), exerciseId), setId, field, hasError))
    {
      session.UpdateSetError(exerciseId, setId, field, hasError);
    }

    /** `has_validation_errors`. */
    method HasValidationErrors() returns (r: bool)
      ensures r <==> AnyFlagged(session.state)
    {
      r := session.HasValidationErrors();
    }

    /**
     * `save_workout`, with `sessionId` and `date` for the clock readings: the
     * target loop, then the session record loop, then a fresh draft.
     */
    method SaveWorkout(items: seq<LegacyItem>, sessionId: Id, date: string)
      requires Valid()
      modifies this, session
      ensures Valid()
      ensures data == Saved(old(data), items, sessionId, date)
      ensures ActiveIndex(old(data)).Some? ==> session.state == Seed(SeedIds(data))
      ensures ActiveIndex(old(data)).None? ==> session.state == old(session.state)
    {
      var active := ActiveIndex(data);
      if active.None? {
        return;
      }
      var i := active.value;
      var p := data.programs[i];
      var exercises := TargetLoop(p.exercises, p.kind, items);
      var records := RecordsOf(items);
      data := WithExercises(data, i, exercises);
      data := data.(workoutHistory := data.workoutHistory + [WorkoutSession(sessionId, date, p.id, p.name, records)]);
      InitCurrentWorkout();
    }

    /** The target loop of `save_workout` over the active program's exercises. */
    static method TargetLoop(exercises: seq<LegacyExercise>, kind: ProgressionType, items: seq<LegacyItem>)
      returns (r: seq<LegacyExercise>)
      ensures r == ApplyItems(exercises, kind, items)
    {
      r := exercises;
      var k := 0;
      while k < |items|
        invariant 0 <= k <= |items|
        invariant r == ApplyItems(exercises, kind, items[..k])
      {
        ApplyItemsStep(exercises, kind, items, k);
        r := ApplyItem(r, kind, items[k]);
        k := k + 1;
      }
      assert items[..k] == items;
    }

    /** The session record loop of `save_workout`. */
    static method RecordsOf(items: seq<LegacyItem>) returns (records: seq<ExerciseResult>)
      ensures records == Records(items)
    {
      records := [];
      var k := 0;
      while k < |items|
        invariant 0 <= k <= |items|
        invariant records == Records(items[..k])
      {
        records := records + [ExerciseResult(items[k].exerciseId, items[k].exerciseName, items[k].newSets)];
        k := k + 1;
      }
      assert items[..k] == items;
    }

    /** `generate_workout_summary`: read-only. */
    method GenerateWorkoutSummary(items: seq<LegacyItem>) returns (r: Summary)
      ensures r == Summarize(data, items)
    {
      var s := data;
      r := Tally(seq(|items|, k requires 0 <= k < |items| => Preview(s, items[k])));
    }

    /** `delete_history_session`: session gone, same-date entries pruned, targets untouched. */
    method DeleteHistorySession(sessionId: Id)
      modifies this
      ensures data == LegacyData.DeleteHistorySession(old(data), sessionId)
    {
      var found := HistoryRules.SessionIndex(data.workoutHistory, sessionId);
      if found.None? {
        return;
      }
      var session := data.workoutHistory[found.value];
      var programs := PruneHistories(data.programs, session);
      data := data.(workoutHistory := HistoryRules.WithoutSession(data.workoutHistory, sessionId), programs := programs);
    }

    /** `get_progress_chart_data`: records collected session by session, sorted by date, one 1RM each. */
    method GetProgressChartData(exerciseId: Id) returns (r: Option<HistoryRules.Chart>)
      ensures r == ChartData(data, exerciseId)
    {
      var points := HistoryRules.CollectPoints(data.workoutHistory, exerciseId);
      if |points| == 0 {
        return None;
      }
      var sorted := HistoryRules.SortByDate(points);
      var labels := seq(|sorted|, m requires 0 <= m < |sorted| => sorted[m].date);
      var normal := seq(|sorted|, m requires 0 <= m < |sorted| => Working(sorted[m].sets));
      var values := OneRepMaxes(normal);
      var chart := ChartData(data, exerciseId).value;
      assert chart.labels == labels;
      assert chart.data == values;
      return Some(HistoryRules.Chart(labels, values));
    }

    /** `reset_all_data`: the empty state and an empty draft. */
    method ResetAllData()
      requires Valid()
      modifies this, session
      ensures Valid()
      ensures data == EmptyLegacyState && session.state == []
    {
      data := EmptyLegacyState;
      session.Reset();
    }
  }
}
