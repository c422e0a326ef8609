/**
 * The progression rules of the two legacy `ProgressiveOverloadLogic` classes
 * (the monolithic predecessors of the live engine). A first workout starts at
 * 20 kg; afterwards the target weight is the first normal set's weight plus an
 * increment, and a goal is 5x5, 3x10 or a 12-rep top set depending on the
 * program type. The two legacy files carry the same three helpers, so they are
 * stated once here. They share nothing with the live rules except the
 * quarter-kilo rounding and the 40 kg increment threshold.
 */
module LegacyRules {
  import opened Wrappers
  import Search
  import opened Types
  import opened Progression

  /** A legacy target's `reps`: a count, or the string "8-12". */
  datatype RepGoal = Count(n: int) | EightToTwelve

  /** The three prescriptions a legacy target's `text` can name. */
  datatype PlanText = FiveByFive | ThreeBySixToTen | ThreeByEightToTwelve

  /** A legacy `nextTarget`: the weight is always a number. */
  datatype LegacyTarget = LegacyTarget(weight: real, sets: int, reps: RepGoal, text: PlanText)

  /** The weight of every first target. */
  const StartWeight: real := 20.0

  /** The target's sets and reps are the ones its text names. */
  predicate Consistent(t: LegacyTarget) {
    match t.text
    case FiveByFive => t.sets == 5 && t.reps == Count(5)
    case ThreeBySixToTen => t.sets == 3 && t.reps == Count(6)
    case ThreeByEightToTwelve => t.sets == 3 && t.reps == EightToTwelve
  }

  /** The default target without normal sets: the text table falls back to the double row. */
  function StartingTarget(kind: ProgressionType): LegacyTarget {
    match kind
    case Linear => LegacyTarget(StartWeight, 5, Count(5), FiveByFive)
    case RepRange => LegacyTarget(StartWeight, 3, EightToTwelve, ThreeByEightToTwelve)
    case _ => LegacyTarget(StartWeight, 3, Count(6), ThreeBySixToTen)
  }

  /** The `targets` table at the new weight: unknown types fall back to the rep_range row. */
  function AdvancedTarget(weight: real, kind: ProgressionType): LegacyTarget {
    match kind
    case Linear => LegacyTarget(weight, 5, Count(5), FiveByFive)
    case Double => LegacyTarget(weight, 3, Count(6), ThreeBySixToTen)
    case _ => LegacyTarget(weight, 3, EightToTwelve, ThreeByEightToTwelve)
  }

  /** The legacy next target computed from a list of sets. */
  function NextTarget(sets: seq<WorkSet>, kind: ProgressionType): (r: LegacyTarget)
    ensures Consistent(r)
    ensures r.sets == if kind == Linear then 5 else 3
  {
    var ws := Working(sets);
    if ws == [] then StartingTarget(kind)
    else AdvancedTarget(RoundQuarter(ws[0].weight + LinearStep(ws[0].weight)), kind)
  }

  /**
   * `_check_goal_achievement` on the new normal sets: no target passes; linear
   * needs five sets of at least 5 reps, double three of at least 10, rep_range
   * a first set of at least 12, each at the target weight or more; an unknown
   * type passes.
   */
  function GoalAchieved(target: Option<LegacyTarget>, ws: seq<WorkSet>, kind: ProgressionType): bool {
    if target.None? then true
    else
      var tw := target.value.weight;
      match kind
      case Linear => |ws| >= 5 && forall i :: 0 <= i < 5 ==> ws[i].reps >= 5 && ws[i].weight >= tw
      case Double => |ws| >= 3 && forall i :: 0 <= i < 3 ==> ws[i].reps >= 10 && ws[i].weight >= tw
      case RepRange => |ws| >= 1 && ws[0].reps >= 12 && ws[0].weight >= tw
      case Other => true
  }

  // ---------------------------------------------------------------------------
  // Properties of the next target

  /** Without normal sets every type starts at 20 kg; only linear asks for five sets of 5. */
  lemma NoSetsStartAtTwenty(sets: seq<WorkSet>, kind: ProgressionType)
    requires Working(sets) == []
    ensures var t := NextTarget(sets, kind);
            t.weight == StartWeight &&
            t.reps == (if kind == Linear then Count(5) else if kind == RepRange then EightToTwelve else Count(6))
  {
  }

  /**
   * With normal sets the new weight is the first one's plus 2.5 kg (above
   * 40 kg) or 1.25 kg, to the nearest quarter: strictly heavier, and exact
   * when the first weight is on the quarter grid.
   */
  lemma AdvancesPastFirstSet(sets: seq<WorkSet>, kind: ProgressionType)
    requires Working(sets) != []
    ensures var w := Working(sets)[0].weight;
            var t := NextTarget(sets, kind);
            w < t.weight <= w + LinearStep(w) + 0.125 &&
            (IsQuarter(w) ==> t.weight == w + LinearStep(w))
  {
    var w := Working(sets)[0].weight;
    if IsQuarter(w) {
      assert IsQuarter(LinearStep(w)) by {
        assert (2.5 * 4.0).Floor == 10 && (1.25 * 4.0).Floor == 5;
      }
      QuarterPlusQuarter(w, LinearStep(w));
      RoundQuarterKeepsQuarters(w + LinearStep(w));
    }
  }

  /** An unknown type starts on the double plan but advances on the rep_range plan. */
  lemma UnknownTypeSwitchesPlan(sets: seq<WorkSet>)
    ensures NextTarget(sets, Other).text ==
            if Working(sets) == [] then ThreeBySixToTen else ThreeByEightToTwelve
  {
  }

  /**
   * A met goal always raises the stored weight: the first set reached the
   * old target, and the new one lies above the first set.
   */
  lemma AchievedGoalRaisesWeight(target: LegacyTarget, ws: seq<WorkSet>, kind: ProgressionType)
    requires kind != Other
    requires forall i :: 0 <= i < |ws| ==> ws[i].kind == Normal
    requires GoalAchieved(Some(target), ws, kind)
    ensures NextTarget(ws, kind).weight > target.weight
  {
    assert Working(ws) == ws by {
      assert forall i :: 0 <= i < |ws| ==> IsNormal(ws[i]);
    }
    AdvancesPastFirstSet(ws, kind);
  }

  // ---------------------------------------------------------------------------
  // _calculate_one_rep_max

  /** The legacy per-set estimate: no guard on the weight, zero for non-positive reps. */
  function Estimate(s: WorkSet): real {
    if s.reps == 1 then s.weight
    else if s.reps > 1 then s.weight * (1.0 + s.reps as real / 30.0)
    else 0.0
  }

  /** The running maximum the loop keeps, starting from 0. */
  function MaxEstimate(sets: seq<WorkSet>): (m: real)
    ensures m >= 0.0
    ensures forall i :: 0 <= i < |sets| ==> Estimate(sets[i]) <= m
    ensures m == 0.0 || exists i :: 0 <= i < |sets| && Estimate(sets[i]) == m
  {
    if |sets| == 0 then 0.0
    else
      var before := MaxEstimate(sets[..|sets| - 1]);
      var e := Estimate(sets[|sets| - 1]);
      assert forall i :: 0 <= i < |sets| - 1 ==> sets[..|sets| - 1][i] == sets[i];
      if e > before then e else before
  }

  /** `_calculate_one_rep_max`. */
  method CalculateOneRepMax(sets: seq<WorkSet>) returns (m: real)
    ensures m == MaxEstimate(sets)
  {
    if |sets| == 0 {
      return 0.0;
    }
    m := 0.0;
    var i := 0;
    while i < |sets|
      invariant 0 <= i <= |sets|
      invariant m == MaxEstimate(sets[..i])
    {
      assert sets[..i + 1][..i] == sets[..i];
      var orm := Estimate(sets[i]);
      if orm > m {
        m := orm;
      }
      i := i + 1;
    }
    assert sets[..i] == sets;
  }

  /** The value comprehension of `get_progress_chart_data`: the 1RM of each record's list of normal sets, in order. */
  method OneRepMaxes(normal: seq<seq<WorkSet>>) returns (values: seq<real>)
    ensures |values| == |normal|
    ensures forall m :: 0 <= m < |normal| ==> values[m] == MaxEstimate(normal[m])
  {
    values := [];
    var n := 0;
    while n < |normal|
      invariant 0 <= n <= |normal|
      invariant |values| == n
      invariant forall m :: 0 <= m < n ==> values[m] == MaxEstimate(normal[m])
    {
      var orm := CalculateOneRepMax(normal[n]);
      values := values + [orm];
      n := n + 1;
    }
  }

  /** A set's legacy estimate is the live one where that is positive, and at most 0 elsewhere. */
  lemma EstimateVersusEpley(s: WorkSet)
    ensures Epley(s) > 0.0 ==> Estimate(s) == Epley(s)
    ensures Epley(s) == 0.0 ==> Estimate(s) <= 0.0
  {
    if s.reps > 1 && s.weight <= 0.0 {
      var f := 1.0 + s.reps as real / 30.0;
      assert f > 0.0;
      assert s.weight * f <= 0.0;
    }
  }

  /**
   * Dropping the live engine's weight guard changes no maximum: the running
   * maximum starts at 0, so negative estimates never win.
   */
  lemma {:induction false} MaxEstimateIsMaxEpley(sets: seq<WorkSet>)
    ensures MaxEstimate(sets) == MaxEpley(sets)
  {
    if |sets| > 0 {
      MaxEstimateIsMaxEpley(sets[..|sets| - 1]);
      EstimateVersusEpley(sets[|sets| - 1]);
    }
  }

  // ---------------------------------------------------------------------------
  // Workout summaries

  /** A detail's status and message: first workout, goal met, goal missed. */
  datatype Outcome = FirstWorkout | GoalMet | GoalMissed

  /** One summary line: the exercise, its outcome, and the target its text shows. */
  datatype Detail = Detail(exerciseName: string, outcome: Outcome, shown: LegacyTarget)

  datatype Summary = Summary(allGoalsAchieved: bool, details: seq<Detail>)

  /**
   * The verdict on one exercise whose stored target is `target`: a first
   * workout and a met goal show the next target, a miss shows the old one.
   */
  function Judge(name: string, target: Option<LegacyTarget>, ws: seq<WorkSet>, kind: ProgressionType): (d: Detail)
    ensures d.exerciseName == name
    ensures d.outcome == FirstWorkout <==> target.None?
    ensures d.outcome == GoalMissed <==> target.Some? && !GoalAchieved(target, ws, kind)
    ensures d.outcome != GoalMissed ==> d.shown == NextTarget(ws, kind)
    ensures d.outcome == GoalMissed ==> Some(d.shown) == target
  {
    if target.None? then Detail(name, FirstWorkout, NextTarget(ws, kind))
    else if GoalAchieved(target, ws, kind) then Detail(name, GoalMet, NextTarget(ws, kind))
    else Detail(name, GoalMissed, target.value)
  }

  /** The target a commit stores for that exercise: set when absent, replaced only on a met goal. */
  function Retarget(target: Option<LegacyTarget>, ws: seq<WorkSet>, kind: ProgressionType): (r: Option<LegacyTarget>)
    ensures r.Some?
    ensures target.Some? && !GoalAchieved(target, ws, kind) ==> r == target
  {
    if target.None? || GoalAchieved(target, ws, kind) then Some(NextTarget(ws, kind)) else target
  }

  /** What a summary line shows is what a commit of the same sets stores. */
  lemma JudgeShowsRetarget(name: string, target: Option<LegacyTarget>, ws: seq<WorkSet>, kind: ProgressionType)
    ensures Some(Judge(name, target, ws, kind).shown) == Retarget(target, ws, kind)
  {
  }

  /** The details in order, from one optional detail per item (`None`: the item was skipped). */
  function Details(previews: seq<Option<Detail>>): (r: seq<Detail>)
    ensures |r| <= |previews|
    ensures forall n :: 0 <= n < |r| ==> Some(r[n]) in previews
    ensures forall k :: 0 <= k < |previews| && previews[k].Some? ==> previews[k].value in r
  {
    if previews == [] then []
    else
      var init := previews[..|previews| - 1];
      var last := previews[|previews| - 1];
      assert forall k :: 0 <= k < |init| ==> init[k] == previews[k];
      Details(init) + (if last.Some? then [last.value] else [])
  }

  /** One unfolding of `Details` at the last item. */
  lemma DetailsLast(previews: seq<Option<Detail>>)
    requires previews != []
    ensures var last := previews[|previews| - 1];
            Details(previews) == Details(previews[..|previews| - 1]) + (if last.Some? then [last.value] else [])
  {
  }

  /** The details of a concatenation are those of each part in turn; one item gives its detail exactly when it has one. */
  lemma DetailsAppend(a: seq<Option<Detail>>, b: seq<Option<Detail>>)
    ensures Details(a + b) == Details(a) + Details(b)
    ensures forall x :: Details([x]) == if x.Some? then [x.value] else []
  {
    DetailsConcat(a, b);
    forall x ensures Details([x]) == if x.Some? then [x.value] else [] {
      assert [x][..0] == [];
      DetailsLast([x]);
    }
  }

  /** `Details` distributes over concatenation. */
  lemma {:induction false} DetailsConcat(a: seq<Option<Detail>>, b: seq<Option<Detail>>)
    ensures Details(a + b) == Details(a) + Details(b)
  {
    if b == [] {
      assert a + b == a;
    } else {
      var init := b[..|b| - 1];
      var last := b[|b| - 1];
      assert (a + b)[..|a + b| - 1] == a + init;
      assert (a + b)[|a + b| - 1] == last;
      DetailsConcat(a, init);
      DetailsLast(a + b);
      DetailsLast(b);
      Search.Regroup(Details(a), Details(init), if last.Some? then [last.value] else []);
    }
  }

  /** No detail is a miss. */
  predicate NoneMissed(details: seq<Detail>) {
    forall n :: 0 <= n < |details| ==> details[n].outcome != GoalMissed
  }

  /** The summary dictionary: every detail, with `all_goals_achieved` false exactly when one missed. */
  function Summarized(previews: seq<Option<Detail>>): (r: Summary)
    ensures r.details == Details(previews)
    ensures r.allGoalsAchieved <==> NoneMissed(r.details)
  {
    var d := Details(previews);
    Summary(NoneMissed(d), d)
  }

  /** The summary loop: details appended in order, the flag cleared by the first miss. */
  method Tally(previews: seq<Option<Detail>>) returns (r: Summary)
    ensures r == Summarized(previews)
  {
    var allGoals := true;
    var details: seq<Detail> := [];
    var k := 0;
    while k < |previews|
      invariant 0 <= k <= |previews|
      invariant details == Details(previews[..k])
      invariant allGoals <==> NoneMissed(details)
    {
      assert previews[..k + 1][..k] == previews[..k];
      var preview := previews[k];
      if preview.Some? {
        if preview.value.outcome == GoalMissed {
          allGoals := false;
        }
        details := details + [preview.value];
      }
      k := k + 1;
    }
    assert previews[..k] == previews;
    return Summary(allGoals, details);
  }
}
