/**
 * The history side of `WorkoutService`: deleting a history session (and
 * recomputing the active program's targets from what remains), and the
 * one-rep-max chart series of an exercise, sorted by date.
 */
module HistoryRules {
  import opened Wrappers
  import opened Types
  import opened Search
  import opened Models
  import opened Progression
  import opened ServiceRules

  // ---------------------------------------------------------------------------
  // delete_history_session

  /** The history without the sessions carrying `sessionId`, in order. */
  function WithoutSession(history: seq<WorkoutSession>, sessionId: Id): (r: seq<WorkoutSession>)
    ensures |r| <= |history|
    ensures forall i :: 0 <= i < |r| ==> r[i] in history && r[i].id != sessionId
    ensures forall i :: 0 <= i < |history| && history[i].id != sessionId ==> history[i] in r
  {
    Filter(history, (w: WorkoutSession) => w.id != sessionId)
  }

  /** Removing a session id from a concatenation removes it from each part in turn; one session stays exactly when its id differs. */
  lemma WithoutSessionAppend(a: seq<WorkoutSession>, b: seq<WorkoutSession>, sessionId: Id)
    ensures WithoutSession(a + b, sessionId) == WithoutSession(a, sessionId) + WithoutSession(b, sessionId)
    ensures forall x :: WithoutSession([x], sessionId) == if x.id != sessionId then [x] else []
  {
    FilterAppend(a, b, (w: WorkoutSession) => w.id != sessionId);
  }

  /** The normal sets of the latest record of the exercise, as `delete_history_session` hands them on. */
  function LatestSets(s: AppState, exerciseId: Id): Option<seq<WorkSet>> {
    match GetLastWorkoutForExercise(s, exerciseId)
    case None => None
    case Some(e) => Some(Working(e.sets))
  }

  /** The target an exercise gets from `s`'s history with its own target cleared. */
  function Recomputed(s: AppState, e: Exercise, kind: ProgressionType): Option<Target> {
    NextTarget(None, LatestSets(s, e.id), kind)
  }

  /** Every exercise's target recomputed from the history of `s`. */
  function RetargetAll(s: AppState, exercises: seq<Exercise>, kind: ProgressionType): (r: seq<Exercise>)
    ensures |r| == |exercises|
    ensures forall k :: 0 <= k < |r| ==>
              r[k].id == exercises[k].id && r[k].name == exercises[k].name &&
              r[k].nextTarget == Recomputed(s, exercises[k], kind)
  {
    seq(|exercises|, k requires 0 <= k < |exercises| =>
      exercises[k].(nextTarget := Recomputed(s, exercises[k], kind)))
  }

  /** The position of the session with that id, if any. */
  function SessionIndex(history: seq<WorkoutSession>, sessionId: Id): (r: Option<nat>)
    ensures r.Some? ==> r.value < |history| && history[r.value].id == sessionId
    ensures r.None? <==> forall i :: 0 <= i < |history| ==> history[i].id != sessionId
  {
    FirstIndex(history, (w: WorkoutSession) => w.id == sessionId)
  }

  /**
   * `delete_history_session`: an unknown id changes nothing; otherwise the
   * session leaves the history and every exercise of the active program gets
   * the target its latest remaining record gives.
   */
  function DeleteHistorySession(s: AppState, sessionId: Id): (r: AppState)
    ensures SessionIndex(s.workoutHistory, sessionId).None? ==> r == s
    ensures SessionIndex(s.workoutHistory, sessionId).Some? ==>
              r.workoutHistory == WithoutSession(s.workoutHistory, sessionId)
    ensures |r.programs| == |s.programs|
    ensures r.activeProgramId == s.activeProgramId && r.userSetupComplete == s.userSetupComplete
    ensures ActiveIndex(s).None? ==> r.programs == s.programs
    ensures ActiveIndex(s).Some? ==>
              forall k :: 0 <= k < |s.programs| && k != ActiveIndex(s).value ==> r.programs[k] == s.programs[k]
  {
    if SessionIndex(s.workoutHistory, sessionId).None? then s
    else
      var remaining := s.(workoutHistory := WithoutSession(s.workoutHistory, sessionId));
      match ActiveIndex(remaining)
      case None => remaining
      case Some(i) =>
        WithExercises(remaining, i, RetargetAll(remaining, remaining.programs[i].exercises, remaining.programs[i].kind))
  }

  /** After a deletion, each exercise of the active program holds the target its remaining records give. */
  lemma DeletedHistoryRecomputes(s: AppState, sessionId: Id, k: nat)
    requires SessionIndex(s.workoutHistory, sessionId).Some? && ActiveIndex(s).Some?
    requires k < |s.programs[ActiveIndex(s).value].exercises|
    ensures var r := DeleteHistorySession(s, sessionId);
            var i := ActiveIndex(s).value;
            var p := s.programs[i];
            |r.programs[i].exercises| == |p.exercises| &&
            r.programs[i].exercises[k].id == p.exercises[k].id &&
            r.programs[i].exercises[k].name == p.exercises[k].name &&
            r.programs[i].exercises[k].nextTarget == NextTarget(None, LatestSets(r, p.exercises[k].id), p.kind)
  {
    var remaining := s.(workoutHistory := WithoutSession(s.workoutHistory, sessionId));
    assert ActiveIndex(remaining) == ActiveIndex(s);
    var i := ActiveIndex(s).value;
    var p := s.programs[i];
    var r := DeleteHistorySession(s, sessionId);
    assert r == WithExercises(remaining, i, RetargetAll(remaining, p.exercises, p.kind));
    assert LatestSets(r, p.exercises[k].id) == LatestSets(remaining, p.exercises[k].id);
  }

  /**
   * After a deletion, an active exercise that no remaining session records
   * falls back to the open default: no weight, 3 sets, 12 reps for linear and
   * 8 otherwise.
   */
  lemma DeletedUnrecordedGetsDefault(s: AppState, sessionId: Id, k: nat)
    requires SessionIndex(s.workoutHistory, sessionId).Some? && ActiveIndex(s).Some?
    requires k < |s.programs[ActiveIndex(s).value].exercises|
    requires var id := s.programs[ActiveIndex(s).value].exercises[k].id;
             forall n :: 0 <= n < |s.workoutHistory| && s.workoutHistory[n].id != sessionId ==>
               !Contains(s.workoutHistory[n], id)
    ensures var r := DeleteHistorySession(s, sessionId);
            var i := ActiveIndex(s).value;
            var t := r.programs[i].exercises[k].nextTarget;
            t.Some? && t.value.weight.None? && t.value.sets == 3 &&
            t.value.reps == (if s.programs[i].kind == Linear then 12 else 8)
  {
    DeletedHistoryRecomputes(s, sessionId, k);
    var r := DeleteHistorySession(s, sessionId);
    var id := s.programs[ActiveIndex(s).value].exercises[k].id;
    forall n | 0 <= n < |r.workoutHistory| ensures !Contains(r.workoutHistory[n], id) {
      assert r.workoutHistory[n] in s.workoutHistory;
    }
    assert GetLastWorkoutForExercise(r, id).None?;
  }

  /**
   * After a deletion, a double-progression exercise whose latest remaining
   * record has normal sets gets a target with a weight.
   */
  lemma DeletedDoubleKeepsWeight(s: AppState, sessionId: Id, k: nat)
    requires SessionIndex(s.workoutHistory, sessionId).Some? && ActiveIndex(s).Some?
    requires s.programs[ActiveIndex(s).value].kind == Double
    requires k < |s.programs[ActiveIndex(s).value].exercises|
    requires var id := s.programs[ActiveIndex(s).value].exercises[k].id;
             var r := DeleteHistorySession(s, sessionId);
             LatestSets(r, id).Some? && |LatestSets(r, id).value| > 0
    ensures var r := DeleteHistorySession(s, sessionId);
            var t := r.programs[ActiveIndex(s).value].exercises[k].nextTarget;
            t.Some? && t.value.weight.Some?
  {
    DeletedHistoryRecomputes(s, sessionId, k);
    var r := DeleteHistorySession(s, sessionId);
    var id := s.programs[ActiveIndex(s).value].exercises[k].id;
    var ws := LatestSets(r, id).value;
    WorkingIdempotent(GetLastWorkoutForExercise(r, id).value.sets);
    DoubleFromNormalSets(ws);
  }

  /** Double progression over a non-empty list of normal sets, without a stored target, always names a weight. */
  lemma DoubleFromNormalSets(ws: seq<WorkSet>)
    requires |ws| > 0 && Working(ws) == ws
    ensures var t := NextTarget(None, Some(ws), Double);
            t.Some? && t.value.weight.Some?
  {
    assert LastSets(Some(ws)) == ws;
    assert NextTarget(None, Some(ws), Double) == Some(DoubleTarget(None, ws));
  }

  // ---------------------------------------------------------------------------
  // get_progress_chart_data

  /** One collected record of the exercise: its session's date and the record's sets. */
  datatype Point = Point(date: string, sets: seq<WorkSet>)

  /** The records of `exerciseId` among one session's entries, in order, each paired with the session's date. */
  function PointsIn(date: string, entries: seq<ExerciseResult>, exerciseId: Id): (r: seq<Point>)
    ensures |r| <= |entries|
    ensures |r| == 0 <==> forall j :: 0 <= j < |entries| ==> entries[j].exerciseId != exerciseId
    ensures forall n :: 0 <= n < |r| ==> r[n].date == date
  {
    if entries == [] then []
    else
      var last := entries[|entries| - 1];
      PointsIn(date, entries[..|entries| - 1], exerciseId) +
        (if last.exerciseId == exerciseId then [Point(date, last.sets)] else [])
  }

  /** Every record of `exerciseId` in the history, session by session. */
  function Collected(history: seq<WorkoutSession>, exerciseId: Id): (r: seq<Point>)
    ensures |r| == 0 <==> forall i :: 0 <= i < |history| ==> !Contains(history[i], exerciseId)
  {
    if history == [] then []
    else
      var last := history[|history| - 1];
      Collected(history[..|history| - 1], exerciseId) + PointsIn(last.date, last.exercises, exerciseId)
  }

  /** One more entry adds its record when it is of the exercise. */
  lemma PointsInStep(date: string, entries: seq<ExerciseResult>, exerciseId: Id, j: nat)
    requires j < |entries|
    ensures PointsIn(date, entries[..j + 1], exerciseId)
              == PointsIn(date, entries[..j], exerciseId) +
                 (if entries[j].exerciseId == exerciseId then [Point(date, entries[j].sets)] else [])
  {
    assert entries[..j + 1][..j] == entries[..j];
  }

  /** One more session adds its records of the exercise. */
  lemma CollectedStep(history: seq<WorkoutSession>, exerciseId: Id, i: nat)
    requires i < |history|
    ensures Collected(history[..i + 1], exerciseId)
              == Collected(history[..i], exerciseId) + PointsIn(history[i].date, history[i].exercises, exerciseId)
  {
    assert history[..i + 1][..i] == history[..i];
  }

  /** Ascending by date. */
  predicate SortedByDate(s: seq<Point>) {
    forall i, j :: 0 <= i < j < |s| ==> DateLeq(s[i].date, s[j].date)
  }

  /** `x` placed before the first point not earlier than it, so points with equal dates keep their order. */
  function Insert(x: Point, t: seq<Point>): (r: seq<Point>)
    ensures |r| == |t| + 1
    ensures multiset(r) == multiset(t) + multiset{x}
  {
    if t == [] then [x]
    else if DateLeq(x.date, t[0].date) then [x] + t
    else
      assert t == [t[0]] + t[1..];
      [t[0]] + Insert(x, t[1..])
  }

  lemma {:induction false} InsertKeepsSorted(x: Point, t: seq<Point>)
    requires SortedByDate(t)
    ensures SortedByDate(Insert(x, t))
  {
    if t == [] {
    } else if DateLeq(x.date, t[0].date) {
      var r := [x] + t;
      forall i, j | 0 <= i < j < |r| ensures DateLeq(r[i].date, r[j].date) {
        if i == 0 && j > 1 {
          DateLeqTransitive(x.date, t[0].date, t[j - 1].date);
        }
      }
    } else {
      DateLeqTotal(x.date, t[0].date);
      InsertKeepsSorted(x, t[1..]);
      var rest := Insert(x, t[1..]);
      HeadBelowInsert(x, t);
      var r := [t[0]] + rest;
      forall i, j | 0 <= i < j < |r| ensures DateLeq(r[i].date, r[j].date) {
        if i > 0 {
          assert r[i] == rest[i - 1] && r[j] == rest[j - 1];
        }
      }
    }
  }

  /** The head of a sorted list comes no later than anything inserted behind it. */
  lemma HeadBelowInsert(x: Point, t: seq<Point>)
    requires t != [] && SortedByDate(t) && DateLeq(t[0].date, x.date)
    ensures forall j :: 0 <= j < |Insert(x, t[1..])| ==> DateLeq(t[0].date, Insert(x, t[1..])[j].date)
  {
    var rest := Insert(x, t[1..]);
    forall j | 0 <= j < |rest| ensures DateLeq(t[0].date, rest[j].date) {
      assert rest[j] in multiset(rest);
      if rest[j] != x {
        assert rest[j] in multiset(t[1..]);
        var m :| 0 <= m < |t[1..]| && t[1..][m] == rest[j];
        assert t[m + 1] == rest[j];
      }
    }
  }

  /** The stable sort of the collected records by date. */
  function SortByDate(s: seq<Point>): (r: seq<Point>)
    ensures |r| == |s|
    ensures multiset(r) == multiset(s)
  {
    if s == [] then []
    else
      assert s == [s[0]] + s[1..];
      Insert(s[0], SortByDate(s[1..]))
  }

  /** The sort puts the points in date order. */
  lemma {:induction false} SortByDateSorts(s: seq<Point>)
    ensures SortedByDate(SortByDate(s))
  {
    if s != [] {
      SortByDateSorts(s[1..]);
      InsertKeepsSorted(s[0], SortByDate(s[1..]));
    }
  }

  /** Points already in date order are left exactly as they are. */
  lemma {:induction false} SortByDateKeepsSorted(s: seq<Point>)
    requires SortedByDate(s)
    ensures SortByDate(s) == s
  {
    if s != [] {
      var rest := s[1..];
      forall i, j | 0 <= i < j < |rest| ensures DateLeq(rest[i].date, rest[j].date) {
        assert rest[i] == s[i + 1] && rest[j] == s[j + 1];
      }
      SortByDateKeepsSorted(rest);
      assert SortByDate(s) == Insert(s[0], rest);
      if rest != [] {
        assert rest[0] == s[1];
        assert DateLeq(s[0].date, rest[0].date);
      }
      assert s == [s[0]] + rest;
    }
  }

  /** The chart: one date label and one 1RM value per record. */
  datatype Chart = Chart(labels: seq<string>, data: seq<real>)

  /** `get_progress_chart_data`: none without records; otherwise dates ascending with the 1RM of each record's normal sets. */
  function ChartData(s: AppState, exerciseId: Id): (r: Option<Chart>)
    ensures r.None? <==> forall i :: 0 <= i < |s.workoutHistory| ==> !Contains(s.workoutHistory[i], exerciseId)
    ensures r.Some? ==> |r.value.labels| == |r.value.data| == |Collected(s.workoutHistory, exerciseId)|
    ensures r.Some? ==>
              var sorted := SortByDate(Collected(s.workoutHistory, exerciseId));
              forall n :: 0 <= n < |sorted| ==>
                r.value.labels[n] == sorted[n].date && r.value.data[n] == MaxEpley(Working(sorted[n].sets))
  {
    var points := Collected(s.workoutHistory, exerciseId);
    if |points| == 0 then None
    else
      var sorted := SortByDate(points);
      Some(Chart(seq(|sorted|, n requires 0 <= n < |sorted| => sorted[n].date),
                 seq(|sorted|, n requires 0 <= n < |sorted| => MaxEpley(Working(sorted[n].sets)))))
  }

  /** The chart's labels ascend, and every plotted value is a non-negative 1RM. */
  lemma ChartIsOrdered(s: AppState, exerciseId: Id)
    requires ChartData(s, exerciseId).Some?
    ensures var c := ChartData(s, exerciseId).value;
            (forall i, j :: 0 <= i < j < |c.labels| ==> DateLeq(c.labels[i], c.labels[j])) &&
            (forall n :: 0 <= n < |c.data| ==> c.data[n] >= 0.0)
  {
    SortByDateSorts(Collected(s.workoutHistory, exerciseId));
  }

  /** The collecting loops of `get_progress_chart_data`: every record of the exercise, session by session. */
  method CollectPoints(history: seq<WorkoutSession>, exerciseId: Id) returns (points: seq<Point>)
    ensures points == Collected(history, exerciseId)
  {
    points := [];
    var i := 0;
    while i < |history|
      invariant 0 <= i <= |history|
      invariant points == Collected(history[..i], exerciseId)
    {
      var found := SessionPoints(history[i].date, history[i].exercises, exerciseId);
      CollectedStep(history, exerciseId, i);
      points := points + found;
      i := i + 1;
    }
    assert history[..i] == history;
  }

  /** The inner collecting loop: the records of the exercise within one session. */
  method SessionPoints(date: string, entries: seq<ExerciseResult>, exerciseId: Id) returns (found: seq<Point>)
    ensures found == PointsIn(date, entries, exerciseId)
  {
    found := [];
    var j := 0;
    while j < |entries|
      invariant 0 <= j <= |entries|
      invariant found == PointsIn(date, entries[..j], exerciseId)
    {
      PointsInStep(date, entries, exerciseId, j);
      if entries[j].exerciseId == exerciseId {
        found := found + [Point(date, entries[j].sets)];
      }
      j := j + 1;
    }
    assert entries[..j] == entries;
  }
}
