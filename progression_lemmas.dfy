/**
 * What the progression rules promise, case by case, and how the goal check
 * and the target rules fit together.
 */
module ProgressionLemmas {
  import opened Wrappers
  import opened Types
  import opened Progression
  import Search

  // ---------------------------------------------------------------------------
  // Default and fall-through

  /** No last workout, or one without normal sets: an open weight, 3 sets, 12 reps for linear and 8 otherwise. */
  lemma NoSetsGiveDefault(current: Option<Target>, lastWorkout: Option<seq<WorkSet>>, kind: ProgressionType)
    requires lastWorkout.None? || forall i :: 0 <= i < |lastWorkout.value| ==> lastWorkout.value[i].kind != Normal
    ensures NoBaselineCrash(current, lastWorkout, kind)
    ensures var r := NextTarget(current, lastWorkout, kind);
            r.Some? && r.value.weight.None? && r.value.sets == 3 &&
            r.value.reps == (if kind == Linear then 12 else 8)
  {
    if lastWorkout.Some? {
      var sets := lastWorkout.value;
      Search.FilterNone(sets, IsNormal);
      assert LastSets(lastWorkout) == [];
    }
  }

  /** A type other than linear or double that does have normal sets gets no target at all. */
  lemma OtherTypeFallsThrough(current: Option<Target>, sets: seq<WorkSet>, kind: ProgressionType)
    requires kind != Linear && kind != Double
    requires exists i :: 0 <= i < |sets| && sets[i].kind == Normal
    ensures NextTarget(current, Some(sets), kind) == None
  {
    var i :| 0 <= i < |sets| && sets[i].kind == Normal;
    assert sets[i] in Working(sets);
  }

  // ---------------------------------------------------------------------------
  // Linear strategy

  /** Fewer than three normal sets: the heaviest of them, or none when that is not positive; never an increment. */
  lemma LinearFewSets(ws: seq<WorkSet>)
    requires 0 < |ws| < 3
    ensures var t := LinearTarget(ws);
            t.sets == 3 && t.reps == 12 &&
            (t.weight.Some? <==> exists i :: 0 <= i < |ws| && ws[i].weight > 0.0) &&
            (t.weight.Some? ==> (forall i :: 0 <= i < |ws| ==> ws[i].weight <= t.weight.value) &&
                                (exists i :: 0 <= i < |ws| && ws[i].weight == t.weight.value))
  {
  }

  /** Three sets of at least 12 reps on one weight `w`: `w` plus the step for `w`, to the nearest quarter. */
  lemma LinearUniformAdvance(ws: seq<WorkSet>, w: real)
    requires |ws| >= 3
    requires forall i :: 0 <= i < 3 ==> ws[i].reps >= 12 && ws[i].weight == w
    ensures LinearTarget(ws).weight == Some(RoundQuarter(w + (if w > 40.0 then 2.5 else 1.25)))
    ensures LinearTarget(ws).weight.value > w
  {
    var first := FirstThree(ws);
    assert first[0].weight == w;
    assert MaxWeight(first) == w;
    assert MinWeight(first) == w;
  }

  /** On the quarter grid the rounding is exact: the advance is precisely the step. */
  lemma LinearUniformAdvanceOnGrid(ws: seq<WorkSet>, w: real)
    requires |ws| >= 3
    requires forall i :: 0 <= i < 3 ==> ws[i].reps >= 12 && ws[i].weight == w
    requires IsQuarter(w)
    ensures LinearTarget(ws).weight == Some(w + LinearStep(w))
  {
    LinearUniformAdvance(ws, w);
    assert IsQuarter(LinearStep(w)) by {
      assert LinearStep(w) * 4.0 == 10.0 || LinearStep(w) * 4.0 == 5.0;
    }
    QuarterPlusQuarter(w, LinearStep(w));
    RoundQuarterKeepsQuarters(w + LinearStep(w));
  }

  /** Three sets of at least 12 reps on different weights: the heaviest of them, no increment. */
  lemma LinearMixedKeepsMax(ws: seq<WorkSet>)
    requires |ws| >= 3
    requires forall i :: 0 <= i < 3 ==> ws[i].reps >= 12
    requires exists i, j :: 0 <= i < 3 && 0 <= j < 3 && ws[i].weight - ws[j].weight >= SameWeightTolerance
    ensures var t := LinearTarget(ws);
            t.weight.Some? &&
            (forall i :: 0 <= i < 3 ==> ws[i].weight <= t.weight.value) &&
            (exists i :: 0 <= i < 3 && ws[i].weight == t.weight.value)
  {
    var first := FirstThree(ws);
    assert AllReach(first, LinearReps) by {
      forall k | 0 <= k < |first|
        ensures first[k].reps >= LinearReps
      {
        assert first[k] == ws[k];
      }
    }
    var i, j :| 0 <= i < 3 && 0 <= j < 3 && ws[i].weight - ws[j].weight >= SameWeightTolerance;
    assert first[i] == ws[i] && first[j] == ws[j];
    assert MaxWeight(first) - MinWeight(first) >= SameWeightTolerance;
    assert LinearTarget(ws).weight == Some(MaxWeight(first));
    forall k | 0 <= k < 3
      ensures ws[k].weight <= MaxWeight(first)
    {
      assert first[k] == ws[k];
    }
    var m :| 0 <= m < 3 && first[m].weight == MaxWeight(first);
    assert ws[m].weight == MaxWeight(first);
  }

  /**
   * Three sets of at least 12 reps whose weights differ by less than the
   * tolerance count as one weight: the heaviest plus its step, to the nearest quarter.
   */
  lemma LinearNearlyUniformAdvance(ws: seq<WorkSet>)
    requires |ws| >= 3
    requires forall i :: 0 <= i < 3 ==> ws[i].reps >= 12
    requires forall i, j :: 0 <= i < 3 && 0 <= j < 3 ==> ws[i].weight - ws[j].weight < SameWeightTolerance
    ensures var hi := MaxWeight(FirstThree(ws));
            (exists i :: 0 <= i < 3 && ws[i].weight == hi) &&
            LinearTarget(ws).weight == Some(RoundQuarter(hi + LinearStep(hi)))
  {
    var first := FirstThree(ws);
    assert AllReach(first, LinearReps) by {
      forall k | 0 <= k < |first|
        ensures first[k].reps >= LinearReps
      {
        assert first[k] == ws[k];
      }
    }
    var i :| 0 <= i < 3 && first[i].weight == MaxWeight(first);
    var j :| 0 <= j < 3 && first[j].weight == MinWeight(first);
    assert first[i] == ws[i] && first[j] == ws[j];
    assert MaxWeight(first) - MinWeight(first) < SameWeightTolerance;
  }

  /** 20 kg, 20.0000000005 kg and 20 kg for 12 reps count as one weight and move to 21.25 kg. */
  lemma LinearNearlyUniformExample(id: Id)
    ensures var a := WorkSet(id, Normal, 20.0, 12);
            var b := WorkSet(id, Normal, 20.0000000005, 12);
            NextTarget(None, Some([a, b, a]), Linear) == Some(Target(Some(21.25), 3, 12, ThreeByTwelve))
  {
    var a := WorkSet(id, Normal, 20.0, 12);
    var b := WorkSet(id, Normal, 20.0000000005, 12);
    var ws := [a, b, a];
    assert Working(ws) == ws;
    NearlyUniformExampleTarget(a, b);
  }

  /** The linear target of the example's three sets. */
  lemma NearlyUniformExampleTarget(a: WorkSet, b: WorkSet)
    requires a.weight == 20.0 && b.weight == 20.0000000005 && a.reps == 12 && b.reps == 12
    ensures LinearTarget([a, b, a]) == Target(Some(21.25), 3, 12, ThreeByTwelve)
  {
    var ws := [a, b, a];
    assert FirstThree(ws) == ws;
    assert AllReach(ws, LinearReps);
    assert MaxWeight(ws) == 20.0000000005 && MinWeight(ws) == 20.0 by {
      assert ws[1..] == [b, a] && ws[1..][1..] == [a];
    }
    assert RoundQuarter(20.0000000005 + LinearStep(20.0000000005)) == 21.25 by {
      assert (20.0000000005 + 1.25) * 4.0 == 85.000000002;
      assert (85.000000002).Floor == 85;
    }
  }

  /**
   * Not all of the first three reached 12: the heaviest weight among those that
   * did, or the heaviest of the three when none did; none when not positive.
   */
  lemma LinearShortfall(ws: seq<WorkSet>)
    requires |ws| >= 3
    requires exists i :: 0 <= i < 3 && ws[i].reps < 12
    ensures var t := LinearTarget(ws);
            var some12 := exists i :: 0 <= i < 3 && ws[i].reps >= 12;
            (t.weight.Some? <==> exists i :: 0 <= i < 3 && (some12 ==> ws[i].reps >= 12) && ws[i].weight > 0.0) &&
            (t.weight.Some? ==> (forall i :: 0 <= i < 3 && (some12 ==> ws[i].reps >= 12) ==> ws[i].weight <= t.weight.value) &&
                                (exists i :: 0 <= i < 3 && (some12 ==> ws[i].reps >= 12) && ws[i].weight == t.weight.value))
  {
    if exists i :: 0 <= i < 3 && ws[i].reps >= 12 {
      ShortfallFromReached(ws);
    } else {
      ShortfallFromAll(ws);
    }
  }

  /** The shortfall case where some of the first three reached 12: their heaviest weight. */
  lemma ShortfallFromReached(ws: seq<WorkSet>)
    requires |ws| >= 3
    requires exists i :: 0 <= i < 3 && ws[i].reps < 12
    requires exists i :: 0 <= i < 3 && ws[i].reps >= 12
    ensures var t := LinearTarget(ws);
            (t.weight.Some? <==> exists i :: 0 <= i < 3 && ws[i].reps >= 12 && ws[i].weight > 0.0) &&
            (t.weight.Some? ==> (forall i :: 0 <= i < 3 && ws[i].reps >= 12 ==> ws[i].weight <= t.weight.value) &&
                                (exists i :: 0 <= i < 3 && ws[i].reps >= 12 && ws[i].weight == t.weight.value))
  {
    var first := FirstThree(ws);
    var k :| 0 <= k < 3 && ws[k].reps < 12;
    assert first[k].reps < 12;
    var reached := Reaching(first, 12);
    var i :| 0 <= i < 3 && ws[i].reps >= 12;
    assert first[i] in reached;
    var m := MaxWeight(reached);
    assert LinearTarget(ws).weight == PositiveOrNone(m);
    forall i | 0 <= i < 3 && ws[i].reps >= 12
      ensures ws[i].weight <= m
    {
      assert first[i] in reached;
    }
    var j :| 0 <= j < |reached| && reached[j].weight == m;
    assert reached[j] in first;
    var x :| 0 <= x < 3 && first[x] == reached[j];
    assert ws[x].reps >= 12 && ws[x].weight == m;
  }

  /** The shortfall case where none of the first three reached 12: the heaviest of the three. */
  lemma ShortfallFromAll(ws: seq<WorkSet>)
    requires |ws| >= 3
    requires forall i :: 0 <= i < 3 ==> ws[i].reps < 12
    ensures var t := LinearTarget(ws);
            (t.weight.Some? <==> exists i :: 0 <= i < 3 && ws[i].weight > 0.0) &&
            (t.weight.Some? ==> (forall i :: 0 <= i < 3 ==> ws[i].weight <= t.weight.value) &&
                                (exists i :: 0 <= i < 3 && ws[i].weight == t.weight.value))
  {
    var first := FirstThree(ws);
    assert first[0].reps < 12;
    forall i | 0 <= i < |first|
      ensures first[i].reps < 12
    {
      assert first[i] == ws[i];
    }
    ReachingNone(first, 12);
    var m := MaxWeight(first);
    assert LinearTarget(ws).weight == PositiveOrNone(m);
    forall i | 0 <= i < 3
      ensures ws[i].weight <= m
    {
      assert first[i] == ws[i];
    }
    var x :| 0 <= x < 3 && first[x].weight == m;
    assert ws[x].weight == m;
  }

  /** A linear target never asks for fewer than 3 sets of 12. */
  lemma LinearIsThreeByTwelve(ws: seq<WorkSet>)
    requires |ws| > 0
    ensures LinearTarget(ws).sets == 3 && LinearTarget(ws).reps == 12 && LinearTarget(ws).text == ThreeByTwelve
  {
  }

  // ---------------------------------------------------------------------------
  // Double progression

  /** A stored target with a weight is the baseline as it stands. */
  lemma DoubleBaselineFromTarget(t: Target, ws: seq<WorkSet>)
    requires |ws| > 0 && t.weight.Some?
    ensures DoubleBaseline(Some(t), ws) == Baseline(t.weight.value, t.reps)
  {
  }

  /** Without a stored target and with some set of at least 8 reps: the heaviest such set, at 8 reps. */
  lemma DoubleBaselineFromEights(ws: seq<WorkSet>)
    requires exists i :: 0 <= i < |ws| && ws[i].reps >= 8
    ensures var b := DoubleBaseline(None, ws);
            b.reps == 8 &&
            (forall i :: 0 <= i < |ws| && ws[i].reps >= 8 ==> ws[i].weight <= b.weight) &&
            (exists i :: 0 <= i < |ws| && ws[i].reps >= 8 && ws[i].weight == b.weight)
  {
    var heavy := Reaching(ws, 8);
    var i :| 0 <= i < |ws| && ws[i].reps >= 8;
    assert ws[i] in heavy;
    var m := MaxWeight(heavy);
    forall i | 0 <= i < |ws| && ws[i].reps >= 8 ensures ws[i].weight <= m {
      assert ws[i] in heavy;
    }
    var j :| 0 <= j < |heavy| && heavy[j].weight == m;
    assert heavy[j] in ws;
  }

  /**
   * Without a stored target and no set reaching 8 reps: the lightest weight among
   * the sets with the most reps, at 8 reps.
   */
  lemma DoubleBaselineFromTies(ws: seq<WorkSet>)
    requires |ws| > 0
    requires forall i :: 0 <= i < |ws| ==> ws[i].reps < 8
    ensures var b := DoubleBaseline(None, ws);
            var top := MaxReps(ws);
            b.reps == 8 &&
            (forall i :: 0 <= i < |ws| && ws[i].reps == top ==> b.weight <= ws[i].weight) &&
            (exists i :: 0 <= i < |ws| && ws[i].reps == top && ws[i].weight == b.weight)
  {
    var top := MaxReps(ws);
    var ties := WithReps(ws, top);
    assert |Reaching(ws, 8)| == 0;
    var i :| 0 <= i < |ws| && ws[i].reps == top;
    assert ws[i] in ties;
    var m := MinWeight(ties);
    forall i | 0 <= i < |ws| && ws[i].reps == top ensures m <= ws[i].weight {
      assert ws[i] in ties;
    }
    var j :| 0 <= j < |ties| && ties[j].weight == m;
    assert ties[j] in ws;
  }

  /** Fewer than three sets, or a miss on the baseline: the baseline is repeated. */
  lemma DoubleRepeatsOnMiss(current: Option<Target>, ws: seq<WorkSet>)
    requires |ws| > 0
    requires current.Some? ==> current.value.weight.Some?
    requires |ws| < 3 || exists i :: 0 <= i < 3 && (ws[i].reps < DoubleBaseline(current, ws).reps ||
                                                   ws[i].weight < DoubleBaseline(current, ws).weight)
    ensures var b := DoubleBaseline(current, ws);
            DoubleTarget(current, ws) == Target(Some(b.weight), 3, b.reps, ThreeByReps(b.reps))
  {
    if |ws| >= 3 {
      var i :| 0 <= i < 3 && (ws[i].reps < DoubleBaseline(current, ws).reps ||
                              ws[i].weight < DoubleBaseline(current, ws).weight);
      assert FirstThree(ws)[i] == ws[i];
    }
  }

  /** All three met the baseline with at least 10 reps each: a quarter-rounded 1.25 kg more, back to 8 reps. */
  lemma DoubleAddsWeight(current: Option<Target>, ws: seq<WorkSet>)
    requires |ws| >= 3
    requires current.Some? ==> current.value.weight.Some?
    requires forall i :: 0 <= i < 3 ==> ws[i].reps >= DoubleBaseline(current, ws).reps &&
                                        ws[i].weight >= DoubleBaseline(current, ws).weight
    requires forall i :: 0 <= i < 3 ==> ws[i].reps >= 10
    ensures var b := DoubleBaseline(current, ws);
            DoubleTarget(current, ws) == Target(Some(RoundQuarter(b.weight + 1.25)), 3, 8, ThreeByReps(8))
  {
    OutcomeAddsWeight(DoubleBaseline(current, ws), ws);
  }

  /** Three sets at or over the baseline `b`, all with at least 10 reps: a quarter-rounded 1.25 kg more, back to 8 reps. */
  lemma OutcomeAddsWeight(b: Baseline, ws: seq<WorkSet>)
    requires |ws| >= 3
    requires forall i :: 0 <= i < 3 ==> ws[i].reps >= b.reps && ws[i].weight >= b.weight
    requires forall i :: 0 <= i < 3 ==> ws[i].reps >= 10
    ensures DoubleOutcome(b, ws) == Target(Some(RoundQuarter(b.weight + 1.25)), 3, 8, ThreeByReps(8))
  {
    var first := FirstThree(ws);
    assert MeetsBaseline(first, b) by {
      forall i | 0 <= i < |first|
        ensures first[i].reps >= b.reps && first[i].weight >= b.weight
      {
        assert first[i] == ws[i];
      }
    }
    var j :| 0 <= j < 3 && first[j].reps == MinReps(first);
    assert first[j] == ws[j];
  }

  /** Three sets at or over the baseline `b`, one of them under 10 reps: same weight, one rep over the weakest set. */
  lemma OutcomeAddsRep(b: Baseline, ws: seq<WorkSet>)
    requires |ws| >= 3
    requires forall i :: 0 <= i < 3 ==> ws[i].reps >= b.reps && ws[i].weight >= b.weight
    requires exists i :: 0 <= i < 3 && ws[i].reps < 10
    ensures var t := DoubleOutcome(b, ws);
            t.weight == Some(b.weight) && t.sets == 3 &&
            (forall i :: 0 <= i < 3 ==> t.reps <= ws[i].reps + 1) &&
            (exists i :: 0 <= i < 3 && t.reps == ws[i].reps + 1)
  {
    var first := FirstThree(ws);
    assert MeetsBaseline(first, b) by {
      forall i | 0 <= i < |first|
        ensures first[i].reps >= b.reps && first[i].weight >= b.weight
      {
        assert first[i] == ws[i];
      }
    }
    var k :| 0 <= k < 3 && ws[k].reps < 10;
    assert first[k].reps < 10;
    var j :| 0 <= j < 3 && first[j].reps == MinReps(first);
    assert ws[j].reps == MinReps(first);
  }

  /** All three met the baseline but one stayed under 10 reps: same weight, one rep over the weakest set. */
  lemma DoubleAddsRep(current: Option<Target>, ws: seq<WorkSet>)
    requires |ws| >= 3
    requires current.Some? ==> current.value.weight.Some?
    requires forall i :: 0 <= i < 3 ==> ws[i].reps >= DoubleBaseline(current, ws).reps &&
                                        ws[i].weight >= DoubleBaseline(current, ws).weight
    requires exists i :: 0 <= i < 3 && ws[i].reps < 10
    ensures var b := DoubleBaseline(current, ws);
            var t := DoubleTarget(current, ws);
            t.weight == Some(b.weight) && t.sets == 3 &&
            (forall i :: 0 <= i < 3 ==> t.reps <= ws[i].reps + 1) &&
            (exists i :: 0 <= i < 3 && t.reps == ws[i].reps + 1)
  {
    OutcomeAddsRep(DoubleBaseline(current, ws), ws);
  }

  /**
   * Double progression never goes backwards: the target is heavier than the
   * baseline, or as heavy with at least as many reps.
   */
  lemma DoubleNeverRegresses(current: Option<Target>, ws: seq<WorkSet>)
    requires |ws| > 0
    requires current.Some? ==> current.value.weight.Some?
    ensures var b := DoubleBaseline(current, ws);
            var t := DoubleTarget(current, ws);
            t.weight.Some? && t.sets == 3 &&
            (t.weight.value > b.weight || (t.weight.value == b.weight && t.reps >= b.reps))
  {
    var first := FirstThree(ws);
    var b := DoubleBaseline(current, ws);
    if |first| >= 3 && MeetsBaseline(first, b) && MinReps(first) < 10 {
      var j :| 0 <= j < 3 && first[j].reps == MinReps(first);
    }
  }

  // ---------------------------------------------------------------------------
  // Goal check against the engine

  /** No stored target, or one with a null weight: the goal counts as achieved. */
  lemma GoalOpenWithoutWeight(current: Option<Target>, newSets: seq<WorkSet>, kind: ProgressionType)
    requires current.None? || current.value.weight.None?
    ensures GoalAchieved(current, newSets, kind)
  {
  }

  /** With a stored weight, fewer than three normal sets never achieve the goal. */
  lemma GoalNeedsThreeSets(current: Option<Target>, newSets: seq<WorkSet>, kind: ProgressionType)
    requires current.Some? && current.value.weight.Some?
    requires |Working(newSets)| < 3
    ensures !GoalAchieved(current, newSets, kind)
  {
  }

  /**
   * With a stored weighted target, a double-progression workout that achieves
   * the goal moves the target strictly forward, and one that misses it
   * repeats the stored target.
   */
  lemma DoubleGoalMatchesEngine(t: Target, newSets: seq<WorkSet>)
    requires t.weight.Some?
    requires |Working(newSets)| > 0
    ensures var next := NextTarget(Some(t), Some(newSets), Double);
            next.Some? && next.value.weight.Some? &&
            (GoalAchieved(Some(t), newSets, Double) ==>
               next.value.weight.value > t.weight.value ||
               (next.value.weight.value == t.weight.value && next.value.reps > t.reps)) &&
            (!GoalAchieved(Some(t), newSets, Double) ==>
               next.value == Target(t.weight, 3, t.reps, ThreeByReps(t.reps)))
  {
    var ws := Working(newSets);
    assert LastSets(Some(newSets)) == ws;
    var b := DoubleBaseline(Some(t), ws);
    assert b == Baseline(t.weight.value, t.reps);
    var first := FirstThree(ws);
    if GoalAchieved(Some(t), newSets, Double) {
      assert MeetsBaseline(first, b);
      if MinReps(first) < 10 {
        var j :| 0 <= j < 3 && first[j].reps == MinReps(first);
      }
    } else if |first| >= 3 {
      assert !MeetsBaseline(first, b);
    }
  }

  /**
   * With a stored weighted target, a linear workout that achieves the goal
   * yields a target at least as heavy as the stored one.
   */
  lemma LinearGoalNeverLowers(t: Target, newSets: seq<WorkSet>)
    requires t.weight.Some?
    requires GoalAchieved(Some(t), newSets, Linear)
    ensures var next := NextTarget(Some(t), Some(newSets), Linear);
            next.Some? && next.value.weight.Some? && next.value.weight.value >= t.weight.value
  {
    var ws := Working(newSets);
    assert LastSets(Some(newSets)) == ws;
    var first := FirstThree(ws);
    assert AllReach(first, LinearReps) by {
      forall i | 0 <= i < |first|
        ensures first[i].reps >= LinearReps
      {
        assert first[i] == ws[i];
      }
    }
    var hi := MaxWeight(first);
    assert first[0] == ws[0];
    assert hi >= t.weight.value;
    assert RoundQuarter(hi + LinearStep(hi)) >= hi;
    assert LinearTarget(ws).weight.value >= hi;
  }

  // ---------------------------------------------------------------------------
  // One-rep max

  /** The running maximum does not depend on how the list is split. */
  lemma {:induction false} MaxEpleyAppend(s: seq<WorkSet>, u: seq<WorkSet>)
    ensures MaxEpley(s + u) == if MaxEpley(s) >= MaxEpley(u) then MaxEpley(s) else MaxEpley(u)
    decreases |u|
  {
    if |u| == 0 {
      assert s + u == s;
    } else {
      var u' := u[..|u| - 1];
      assert (s + u)[..|s + u| - 1] == s + u';
      assert (s + u)[|s + u| - 1] == u[|u| - 1];
      MaxEpleyAppend(s, u');
    }
  }

  /** Epley on one rep is the weight; on ten reps it is a third more. */
  lemma EpleyExamples(id: Id)
    ensures Epley(WorkSet(id, Normal, 100.0, 1)) == 100.0
    ensures Epley(WorkSet(id, Normal, 100.0, 10)) == 400.0 / 3.0
    ensures Epley(WorkSet(id, Normal, 100.0, 0)) == 0.0
    ensures Epley(WorkSet(id, Normal, 0.0, 5)) == 0.0
    ensures MaxEpley([]) == 0.0
  {
  }

  // ---------------------------------------------------------------------------
  // Worked examples

  /** Linear with no last workout: an open 3x12. */
  lemma LinearFirstWorkoutExample()
    ensures NextTarget(None, None, Linear) == Some(Target(None, 3, 12, MaxWeightPlan(12)))
  {
  }

  /** Double at 20 kg x 8: three sets of 10 at 20 kg move to 21.25 kg x 8. */
  lemma DoubleWeightStepExample(id: Id)
    ensures var s := WorkSet(id, Normal, 20.0, 10);
            NextTarget(Some(Target(Some(20.0), 3, 8, ThreeByReps(8))), Some([s, s, s]), Double)
              == Some(Target(Some(21.25), 3, 8, ThreeByReps(8)))
  {
    var s := WorkSet(id, Normal, 20.0, 10);
    assert Working([s, s, s]) == [s, s, s];
    assert RoundHalfEven(85.0) == 85;
  }

  /** Double at 20 kg x 8: three sets of 9 at 20 kg move to 20 kg x 10. */
  lemma DoubleRepStepExample(id: Id)
    ensures var s := WorkSet(id, Normal, 20.0, 9);
            NextTarget(Some(Target(Some(20.0), 3, 8, ThreeByReps(8))), Some([s, s, s]), Double)
              == Some(Target(Some(20.0), 3, 10, ThreeByReps(10)))
  {
    var s := WorkSet(id, Normal, 20.0, 9);
    assert Working([s, s, s]) == [s, s, s];
    assert MinReps(FirstThree([s, s, s])) == 9;
  }
}
