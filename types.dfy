/**
 * The records of the live application state (programs, exercises, targets,
 * history sessions) and of the in-progress workout draft, as tagged records
 * instead of open dictionaries.
 */
module Types {
  import opened Wrappers
  import opened Search

  /** Program, exercise, set and session ids (millisecond timestamps in the source). */
  type Id = int

  /** A set's `type` field; only `"normal"` sets take part in progression and 1RM math. */
  datatype SetKind = Normal | NotNormal

  /** A committed set: the UI has already parsed weight and reps into numbers. */
  datatype WorkSet = WorkSet(id: Id, kind: SetKind, weight: real, reps: int)

  /**
   * A program's `progressionType`. The source branches on arbitrary strings:
   * `Linear` is "linear", `Double` is "double", `RepRange` is "rep_range"
   * (known only to the legacy variants), `Other` is any other string.
   */
  datatype ProgressionType = Linear | Double | RepRange | Other

  /**
   * The human-readable prescription of a live target. `MaxWeightPlan(r)` is
   * "3 sets of r reps at maximum weight", `ThreeByTwelve` is "3 sets of 12 reps",
   * `ThreeByReps(r)` is "3 sets x r reps".
   */
  datatype TargetText = MaxWeightPlan(reps: int) | ThreeByTwelve | ThreeByReps(reps: int)

  /** An exercise's `nextTarget`; `weight == None` is JSON null. */
  datatype Target = Target(weight: Option<real>, sets: int, reps: int, text: TargetText)

  datatype Exercise = Exercise(id: Id, name: string, nextTarget: Option<Target>)

  datatype Program = Program(id: Id, name: string, kind: ProgressionType, exercises: seq<Exercise>)

  /** One exercise's record inside a history session. */
  datatype ExerciseResult = ExerciseResult(exerciseId: Id, exerciseName: string, sets: seq<WorkSet>)

  /** A history entry; `date` is a "%Y-%m-%d %H:%M:%S" timestamp string. */
  datatype WorkoutSession = WorkoutSession(id: Id, date: string, programId: Id, programName: string,
                                           exercises: seq<ExerciseResult>)

  /** The whole persisted record. `activeProgramId == None` is JSON null. */
  datatype AppState = AppState(programs: seq<Program>, workoutHistory: seq<WorkoutSession>,
                               userSetupComplete: bool, activeProgramId: Option<Id>)

  /** The state `reset_all_data` and a missing store start from. */
  const EmptyState := AppState([], [], false, None)

  /** The two fields a draft set can be edited or flagged on. */
  datatype Field = WeightField | RepsField

  /** A set of the in-progress workout: weight and reps are still the typed-in text. */
  datatype DraftSet = DraftSet(id: Id, kind: SetKind, weight: string, reps: string, errors: map<Field, bool>)

  /** The ids of a list of exercises, in order. */
  function ExerciseIds(exercises: seq<Exercise>): (r: seq<Id>)
    ensures |r| == |exercises|
    ensures forall i :: 0 <= i < |r| ==> r[i] == exercises[i].id
  {
    seq(|exercises|, i requires 0 <= i < |exercises| => exercises[i].id)
  }

  predicate IsNormal(s: WorkSet) {
    s.kind == Normal
  }

  /** The normal (working) sets, in order; warm-up sets are dropped. */
  function Working(sets: seq<WorkSet>): (r: seq<WorkSet>)
    ensures |r| <= |sets|
    ensures forall s :: s in r <==> s in sets && s.kind == Normal
  {
    Filter(sets, IsNormal)
  }

  /** The normal sets of a concatenation are those of each part in turn, and one set is kept exactly when it is normal. */
  lemma WorkingAppend(a: seq<WorkSet>, b: seq<WorkSet>)
    ensures Working(a + b) == Working(a) + Working(b)
    ensures forall x :: Working([x]) == if x.kind == Normal then [x] else []
  {
    FilterAppend(a, b, IsNormal);
  }

  /** Filtering an already filtered list changes nothing. */
  lemma WorkingIdempotent(sets: seq<WorkSet>)
    ensures Working(Working(sets)) == Working(sets)
  {
    var w := Working(sets);
    assert forall i :: 0 <= i < |w| ==> IsNormal(w[i]);
  }

  /** Python's `<=` on strings: lexicographic by code point. */
  predicate DateLeq(a: string, b: string) {
    |a| == 0 || (|b| > 0 && (a[0] < b[0] || (a[0] == b[0] && DateLeq(a[1..], b[1..]))))
  }

  lemma {:induction false} DateLeqTotal(a: string, b: string)
    ensures DateLeq(a, b) || DateLeq(b, a)
  {
    if |a| > 0 && |b| > 0 && a[0] == b[0] {
      DateLeqTotal(a[1..], b[1..]);
    }
  }

  lemma {:induction false} DateLeqTransitive(a: string, b: string, c: string)
    requires DateLeq(a, b) && DateLeq(b, c)
    ensures DateLeq(a, c)
  {
    if |a| > 0 && |b| > 0 && |c| > 0 && a[0] == b[0] && b[0] == c[0] {
      DateLeqTransitive(a[1..], b[1..], c[1..]);
    }
  }
}
