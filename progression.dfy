/**
 * The live progression engine: deriving the next weight/sets/reps target from
 * the last workout's normal sets (linear 3x12 and double progression),
 * deciding whether a workout met the stored target, and the Epley one-rep-max.
 */
module Progression {
  import opened Wrappers
  import opened Types
  import opened Search

  // ---------------------------------------------------------------------------
  // Arithmetic helpers

  /** Python's `round(x)`: the nearest integer, ties to the even one. */
  function RoundHalfEven(x: real): (n: int)
    ensures x - 0.5 <= n as real <= x + 0.5
  {
    var f := x.Floor;
    var d := x - f as real;
    if d < 0.5 then f else if d > 0.5 then f + 1 else if f % 2 == 0 then f else f + 1
  }

  /** `v` rounded to the nearest quarter kilo (four times `v`, rounded half to even, over four). */
  function RoundQuarter(v: real): (r: real)
    ensures v - 0.125 <= r <= v + 0.125
  {
    RoundHalfEven(v * 4.0) as real / 4.0
  }

  /** `v` is a whole number of quarter kilos. */
  predicate IsQuarter(v: real) {
    (v * 4.0).Floor as real == v * 4.0
  }

  /** A weight already on the quarter grid is left as it is by the rounding. */
  lemma RoundQuarterKeepsQuarters(v: real)
    requires IsQuarter(v)
    ensures RoundQuarter(v) == v
  {
    assert RoundHalfEven(v * 4.0) == (v * 4.0).Floor;
  }

  /** Adding a whole number of quarters stays on the grid. */
  lemma QuarterPlusQuarter(w: real, step: real)
    requires IsQuarter(w) && IsQuarter(step)
    ensures IsQuarter(w + step)
  {
    var a, b := (w * 4.0).Floor, (step * 4.0).Floor;
    assert (w + step) * 4.0 == (a + b) as real;
  }

  /** The linear increment: 2.5 kg above 40 kg, 1.25 kg otherwise. */
  function LinearStep(w: real): real {
    if w > 40.0 then 2.5 else 1.25
  }

  /** Three weights whose spread is below this count as one weight for the linear increment. */
  const SameWeightTolerance: real := 0.000000001

  /** The double-progression increment. */
  const DoubleStep: real := 1.25

  /** The weight when it is positive, otherwise no weight. */
  function PositiveOrNone(w: real): (r: Option<real>)
    ensures r.Some? <==> w > 0.0
    ensures r.Some? ==> r.value == w
  {
    if w > 0.0 then Some(w) else None
  }

  // ---------------------------------------------------------------------------
  // max/min over lists of sets

  function MaxWeight(sets: seq<WorkSet>): (m: real)
    requires |sets| > 0
    ensures forall i :: 0 <= i < |sets| ==> sets[i].weight <= m
    ensures exists i :: 0 <= i < |sets| && sets[i].weight == m
  {
    if |sets| == 1 then sets[0].weight
    else
      var rest := MaxWeight(sets[1..]);
      if sets[0].weight >= rest then sets[0].weight else rest
  }

  function MinWeight(sets: seq<WorkSet>): (m: real)
    requires |sets| > 0
    ensures forall i :: 0 <= i < |sets| ==> m <= sets[i].weight
    ensures exists i :: 0 <= i < |sets| && sets[i].weight == m
  {
    if |sets| == 1 then sets[0].weight
    else
      var rest := MinWeight(sets[1..]);
      if sets[0].weight <= rest then sets[0].weight else rest
  }

  function MaxReps(sets: seq<WorkSet>): (m: int)
    requires |sets| > 0
    ensures forall i :: 0 <= i < |sets| ==> sets[i].reps <= m
    ensures exists i :: 0 <= i < |sets| && sets[i].reps == m
  {
    if |sets| == 1 then sets[0].reps
    else
      var rest := MaxReps(sets[1..]);
      if sets[0].reps >= rest then sets[0].reps else rest
  }

  function MinReps(sets: seq<WorkSet>): (m: int)
    requires |sets| > 0
    ensures forall i :: 0 <= i < |sets| ==> m <= sets[i].reps
    ensures exists i :: 0 <= i < |sets| && sets[i].reps == m
  {
    if |sets| == 1 then sets[0].reps
    else
      var rest := MinReps(sets[1..]);
      if sets[0].reps <= rest then sets[0].reps else rest
  }

  /** `sets[:3]`. */
  function FirstThree(sets: seq<WorkSet>): (r: seq<WorkSet>)
    ensures |r| == if |sets| < 3 then |sets| else 3
    ensures forall i :: 0 <= i < |r| ==> r[i] == sets[i]
  {
    if |sets| < 3 then sets else sets[..3]
  }

  /** The sets with at least `reps` repetitions, in order. */
  function Reaching(sets: seq<WorkSet>, reps: int): (r: seq<WorkSet>)
    ensures forall i :: 0 <= i < |r| ==> r[i] in sets && r[i].reps >= reps
    ensures forall i :: 0 <= i < |sets| && sets[i].reps >= reps ==> sets[i] in r
  {
    Filter(sets, (s: WorkSet) => s.reps >= reps)
  }

  /** When no set has `reps` repetitions or more, none is reaching. */
  lemma ReachingNone(sets: seq<WorkSet>, reps: int)
    requires forall i :: 0 <= i < |sets| ==> sets[i].reps < reps
    ensures Reaching(sets, reps) == []
  {
    FilterNone(sets, (s: WorkSet) => s.reps >= reps);
  }

  /** The sets with exactly `reps` repetitions, in order. */
  function WithReps(sets: seq<WorkSet>, reps: int): (r: seq<WorkSet>)
    ensures forall i :: 0 <= i < |r| ==> r[i] in sets && r[i].reps == reps
    ensures forall i :: 0 <= i < |sets| && sets[i].reps == reps ==> sets[i] in r
  {
    Filter(sets, (s: WorkSet) => s.reps == reps)
  }

  /** Every set has at least `reps` repetitions. */
  predicate AllReach(sets: seq<WorkSet>, reps: int) {
    forall i :: 0 <= i < |sets| ==> sets[i].reps >= reps
  }

  // ---------------------------------------------------------------------------
  // calculate_next_target

  /** The fixed linear goal. */
  const LinearReps := 12

  /** The double-progression starting rep count, and the count it resets to. */
  const DoubleBaseReps := 8

  /** The rep count from which double progression adds weight. */
  const DoubleTopReps := 10

  /** The target when the last workout has no normal sets. */
  function DefaultTarget(kind: ProgressionType): Target {
    if kind == Linear then Target(None, 3, LinearReps, MaxWeightPlan(LinearReps))
    else Target(None, 3, DoubleBaseReps, MaxWeightPlan(DoubleBaseReps))
  }

  /** The normal sets of the optional last workout (`[]` without one). */
  function LastSets(lastWorkout: Option<seq<WorkSet>>): seq<WorkSet> {
    Working(lastWorkout.GetOr([]))
  }

  /** The linear (3x12) strategy over the normal sets `ws`. */
  function LinearTarget(ws: seq<WorkSet>): Target
    requires |ws| > 0
  {
    var first := FirstThree(ws);
    if |first| < 3 then
      Target(PositiveOrNone(MaxWeight(first)), 3, LinearReps, ThreeByTwelve)
    else if AllReach(first, LinearReps) then
      var hi := MaxWeight(first);
      if hi - MinWeight(first) < SameWeightTolerance then Target(Some(RoundQuarter(hi + LinearStep(hi))), 3, LinearReps, ThreeByTwelve)
      else Target(Some(hi), 3, LinearReps, ThreeByTwelve)
    else
      var reached := Reaching(first, LinearReps);
      var w := if |reached| > 0 then MaxWeight(reached) else MaxWeight(first);
      Target(PositiveOrNone(w), 3, LinearReps, ThreeByTwelve)
  }

  /** The (weight, reps) pair double progression advances from. */
  datatype Baseline = Baseline(weight: real, reps: int)

  /**
   * The double-progression baseline: the stored target when there is one,
   * otherwise derived from the sets.
   */
  function DoubleBaseline(current: Option<Target>, ws: seq<WorkSet>): Baseline
    requires |ws| > 0
    requires current.Some? ==> current.value.weight.Some?
  {
    if current.Some? then Baseline(current.value.weight.value, current.value.reps)
    else
      var heavy := Reaching(ws, DoubleBaseReps);
      if |heavy| > 0 then Baseline(MaxWeight(heavy), DoubleBaseReps)
      else
        var top := MaxReps(ws);
        var ties := WithReps(ws, top);
        assert |ties| > 0 by {
          var i :| 0 <= i < |ws| && ws[i].reps == top;
          assert ws[i] in ties;
        }
        Baseline(MinWeight(ties), DoubleBaseReps)
  }

  /** The first three sets all meet the baseline's reps and weight. */
  predicate MeetsBaseline(first: seq<WorkSet>, b: Baseline) {
    forall i :: 0 <= i < |first| ==> first[i].reps >= b.reps && first[i].weight >= b.weight
  }

  /** The double-progression outcome over the normal sets `ws` once the baseline `b` is known. */
  function DoubleOutcome(b: Baseline, ws: seq<WorkSet>): Target
    requires |ws| > 0
  {
    var first := FirstThree(ws);
    if |first| < 3 || !MeetsBaseline(first, b) then
      Target(Some(b.weight), 3, b.reps, ThreeByReps(b.reps))
    else
      var least := MinReps(first);
      if least >= DoubleTopReps then
        Target(Some(RoundQuarter(b.weight + DoubleStep)), 3, DoubleBaseReps, ThreeByReps(DoubleBaseReps))
      else
        Target(Some(b.weight), 3, least + 1, ThreeByReps(least + 1))
  }

  /** The double-progression strategy over the normal sets `ws`. */
  function DoubleTarget(current: Option<Target>, ws: seq<WorkSet>): Target
    requires |ws| > 0
    requires current.Some? ==> current.value.weight.Some?
  {
    DoubleOutcome(DoubleBaseline(current, ws), ws)
  }

  /**
   * The double branch converts a stored target's weight with `float`, which
   * raises on a null weight; everything else in `calculate_next_target` is total.
   */
  predicate NoBaselineCrash(current: Option<Target>, lastWorkout: Option<seq<WorkSet>>, kind: ProgressionType) {
    !(kind == Double && |LastSets(lastWorkout)| > 0 && current.Some? && current.value.weight.None?)
  }

  /**
   * `calculate_next_target(exercise, last_workout, progression_type)` where
   * `current` is the exercise's `nextTarget`. `None` is the Python `None` that a
   * type other than linear or double falls through to.
   */
  function NextTarget(current: Option<Target>, lastWorkout: Option<seq<WorkSet>>, kind: ProgressionType): (r: Option<Target>)
    requires NoBaselineCrash(current, lastWorkout, kind)
    ensures r.None? <==> |LastSets(lastWorkout)| > 0 && kind != Linear && kind != Double
    ensures r.Some? ==> r.value.sets == 3
  {
    var ws := LastSets(lastWorkout);
    if |ws| == 0 then Some(DefaultTarget(kind))
    else if kind == Linear then Some(LinearTarget(ws))
    else if kind == Double then Some(DoubleTarget(current, ws))
    else None
  }

  // ---------------------------------------------------------------------------
  // check_goal_achievement

  /**
   * `check_goal_achievement(exercise, new_working_sets, progression_type)`
   * where `current` is the exercise's `nextTarget`. A null stored weight makes
   * `float` raise, which the source catches and treats as achieved.
   */
  function GoalAchieved(current: Option<Target>, newSets: seq<WorkSet>, kind: ProgressionType): bool {
    if current.None? || current.value.weight.None? then true
    else
      var targetReps := if kind == Linear then LinearReps else current.value.reps;
      var ws := Working(newSets);
      |ws| >= 3 && forall i :: 0 <= i < 3 ==> ws[i].reps >= targetReps && ws[i].weight >= current.value.weight.value
  }

  // ---------------------------------------------------------------------------
  // calculate_one_rep_max

  /** The Epley estimate of one set. */
  function Epley(s: WorkSet): (e: real)
    ensures e >= 0.0
    ensures s.reps >= 1 && s.weight > 0.0 ==> e >= s.weight
  {
    if s.reps <= 0 || s.weight <= 0.0 then 0.0
    else if s.reps == 1 then s.weight
    else s.weight * (1.0 + s.reps as real / 30.0)
  }

  /** The running maximum the loop keeps, starting from 0. */
  function MaxEpley(sets: seq<WorkSet>): (m: real)
    ensures m >= 0.0
    ensures forall i :: 0 <= i < |sets| ==> Epley(sets[i]) <= m
    ensures m == 0.0 || exists i :: 0 <= i < |sets| && Epley(sets[i]) == m
  {
    if |sets| == 0 then 0.0
    else
      var before := MaxEpley(sets[..|sets| - 1]);
      var e := Epley(sets[|sets| - 1]);
      assert forall i :: 0 <= i < |sets| - 1 ==> sets[..|sets| - 1][i] == sets[i];
      if e > before then e else before
  }

  /** `calculate_one_rep_max`. */
  method CalculateOneRepMax(sets: seq<WorkSet>) returns (m: real)
    ensures m == MaxEpley(sets)
  {
    if |sets| == 0 {
      return 0.0;
    }
    m := 0.0;
    var i := 0;
    while i < |sets|
      invariant 0 <= i <= |sets|
      invariant m == MaxEpley(sets[..i])
    {
      assert sets[..i + 1][..i] == sets[..i];
      var orm := Epley(sets[i]);
      if orm > m {
        m := orm;
      }
      i := i + 1;
    }
    assert sets[..i] == sets;
  }
}
