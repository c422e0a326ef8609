/**
 * The legacy `ProgressiveOverloadLogic` the `src` application runs: it
 * commits the draft itself (blank or unparsable sets dropped), appends the
 * saved sets to each exercise's own history, and computes the new targets on
 * the copy `find_exercise_by_id` returns, so stored targets never change.
 */
module LegacySrc {
  import opened Wrappers
  import Search
  import opened Types
  import opened Drafts
  import opened LegacyRules
  import opened LegacyData
  import SessionStates
  import HistoryRules

  // ---------------------------------------------------------------------------
  // Committing draft sets

  /** Python's `str.isspace` for one character. */
  predicate IsSpace(c: char) {
    var n := c as int;
    (9 <= n <= 13) || (28 <= n <= 32) || n == 0x85 || n == 0xA0 || n == 0x1680 ||
    (0x2000 <= n <= 0x200A) || n == 0x2028 || n == 0x2029 || n == 0x202F || n == 0x205F || n == 0x3000
  }

  /** The text is blank once surrounding whitespace is stripped. */
  predicate Blank(t: string) {
    forall i :: 0 <= i < |t| ==> IsSpace(t[i])
  }

  /**
   * The committed copy of one draft set, with `parseWeight` and `parseReps`
   * for `float(...)` and `int(...)`: none when a field is blank or does not parse.
   */
  function Committed(s: DraftSet, parseWeight: string -> Option<real>, parseReps: string -> Option<int>): (r: Option<WorkSet>)
    ensures r.None? <==> Blank(s.weight) || Blank(s.reps) || parseWeight(s.weight).None? || parseReps(s.reps).None?
    ensures r.Some? ==> r.value == WorkSet(s.id, s.kind, parseWeight(s.weight).value, parseReps(s.reps).value)
  {
    if Blank(s.weight) || Blank(s.reps) then None
    else match (parseWeight(s.weight), parseReps(s.reps))
      case (Some(w), Some(n)) => Some(WorkSet(s.id, s.kind, w, n))
      case _ => None
  }

  /** `sets_to_save`: the committed sets in draft order. */
  function ToSave(sets: seq<DraftSet>, parseWeight: string -> Option<real>, parseReps: string -> Option<int>): (r: seq<WorkSet>)
    ensures |r| <= |sets|
    ensures r == [] <==> forall m :: 0 <= m < |sets| ==> Committed(sets[m], parseWeight, parseReps).None?
    ensures forall n :: 0 <= n < |r| ==>
              exists m :: 0 <= m < |sets| && Committed(sets[m], parseWeight, parseReps) == Some(r[n])
  {
    if sets == [] then []
    else
      var init := sets[..|sets| - 1];
      var before := ToSave(init, parseWeight, parseReps);
      assert forall m :: 0 <= m < |init| ==> init[m] == sets[m];
      match Committed(sets[|sets| - 1], parseWeight, parseReps)
      case None => before
      case Some(w) => before + [w]
  }

  /** What one draft set contributes to `ToSave`: its committed copy, if any. */
  function Kept(s: DraftSet, parseWeight: string -> Option<real>, parseReps: string -> Option<int>): seq<WorkSet> {
    var c := Committed(s, parseWeight, parseReps);
    if c.Some? then [c.value] else []
  }

  /** One unfolding of `ToSave` at the last draft set. */
  lemma ToSaveLast(sets: seq<DraftSet>, parseWeight: string -> Option<real>, parseReps: string -> Option<int>)
    requires sets != []
    ensures ToSave(sets, parseWeight, parseReps) ==
            ToSave(sets[..|sets| - 1], parseWeight, parseReps) + Kept(sets[|sets| - 1], parseWeight, parseReps)
  {
  }

  /** Every set that commits is saved. */
  lemma {:induction false} ToSaveKeepsCommitted(sets: seq<DraftSet>, parseWeight: string -> Option<real>, parseReps: string -> Option<int>)
    ensures forall m :: 0 <= m < |sets| && Committed(sets[m], parseWeight, parseReps).Some? ==>
              Committed(sets[m], parseWeight, parseReps).value in ToSave(sets, parseWeight, parseReps)
  {
    if sets != [] {
      var init := sets[..|sets| - 1];
      ToSaveKeepsCommitted(init, parseWeight, parseReps);
      ToSaveLast(sets, parseWeight, parseReps);
      forall m | 0 <= m < |sets| && Committed(sets[m], parseWeight, parseReps).Some?
        ensures Committed(sets[m], parseWeight, parseReps).value in ToSave(sets, parseWeight, parseReps)
      {
        if m < |init| {
          assert init[m] == sets[m];
        }
      }
    }
  }

  /** The committed sets of a concatenation are those of each part in turn; one set is kept exactly when it commits. */
  lemma {:induction false} ToSaveAppend(a: seq<DraftSet>, b: seq<DraftSet>, parseWeight: string -> Option<real>, parseReps: string -> Option<int>)
    ensures ToSave(a + b, parseWeight, parseReps) == ToSave(a, parseWeight, parseReps) + ToSave(b, parseWeight, parseReps)
    ensures forall x :: ToSave([x], parseWeight, parseReps) ==
                        if Committed(x, parseWeight, parseReps).Some? then [Committed(x, parseWeight, parseReps).value] else []
  {
    ToSaveConcat(a, b, parseWeight, parseReps);
    forall x ensures ToSave([x], parseWeight, parseReps) ==
                     if Committed(x, parseWeight, parseReps).Some? then [Committed(x, parseWeight, parseReps).value] else [] {
      assert [x][..0] == [];
      ToSaveLast([x], parseWeight, parseReps);
    }
  }

  /** `ToSave` distributes over concatenation. */
  lemma {:induction false} ToSaveConcat(a: seq<DraftSet>, b: seq<DraftSet>, parseWeight: string -> Option<real>, parseReps: string -> Option<int>)
    ensures ToSave(a + b, parseWeight, parseReps) == ToSave(a, parseWeight, parseReps) + ToSave(b, parseWeight, parseReps)
  {
    if b == [] {
      assert a + b == a;
    } else {
      var init := b[..|b| - 1];
      var last := Kept(b[|b| - 1], parseWeight, parseReps);
      assert (a + b)[..|a + b| - 1] == a + init;
      assert (a + b)[|a + b| - 1] == b[|b| - 1];
      ToSaveConcat(a, init, parseWeight, parseReps);
      ToSaveLast(a + b, parseWeight, parseReps);
      ToSaveLast(b, parseWeight, parseReps);
      Search.Regroup(ToSave(a, parseWeight, parseReps), ToSave(init, parseWeight, parseReps), last);
    }
  }

  // ---------------------------------------------------------------------------
  // The commit loop of save_workout

  /** `e` later in time: same exercise and target, history only extended. */
  predicate Grown(e: LegacyExercise, f: LegacyExercise) {
    e.id == f.id && e.name == f.name && e.nextTarget == f.nextTarget && e.history <= f.history
  }

  /** The same programs and exercises in the same places, with histories only extended. */
  predicate SameButHistory(a: seq<LegacyProgram>, b: seq<LegacyProgram>) {
    |a| == |b| &&
    forall i :: 0 <= i < |a| ==>
      a[i].id == b[i].id && a[i].name == b[i].name && a[i].kind == b[i].kind &&
      |a[i].exercises| == |b[i].exercises| &&
      forall j :: 0 <= j < |a[i].exercises| ==> Grown(a[i].exercises[j], b[i].exercises[j])
  }

  lemma SameButHistoryTransitive(a: seq<LegacyProgram>, b: seq<LegacyProgram>, c: seq<LegacyProgram>)
    requires SameButHistory(a, b) && SameButHistory(b, c)
    ensures SameButHistory(a, c)
  {
    forall i, j | 0 <= i < |a| && 0 <= j < |a[i].exercises|
      ensures Grown(a[i].exercises[j], c[i].exercises[j])
    {
      var x, y, z := a[i].exercises[j].history, b[i].exercises[j].history, c[i].exercises[j].history;
      assert x <= y && y <= z;
      assert y[..|x|] == x;
      assert z[..|y|] == y;
      assert z[..|x|] == y[..|y|][..|x|];
    }
  }

  /**
   * What `save_workout` hands the summary: the copy `find_exercise_by_id`
   * returned (its history list is shared, so it shows the new entry), its
   * program id, and the saved sets.
   */
  datatype CopiedItem = CopiedItem(exercise: LegacyExercise, programId: Id, newSets: seq<WorkSet>)

  /** The item's copy was taken from an exercise of a program with the item's program id, same name and target. */
  predicate CopyOf(programs: seq<LegacyProgram>, item: CopiedItem) {
    exists i, j :: 0 <= i < |programs| && 0 <= j < |programs[i].exercises| &&
                   programs[i].id == item.programId &&
                   programs[i].exercises[j].id == item.exercise.id &&
                   programs[i].exercises[j].name == item.exercise.name &&
                   programs[i].exercises[j].nextTarget == item.exercise.nextTarget
  }

  /** The loop's running state: the programs, the summary items and the session records. */
  datatype Gathered = Gathered(programs: seq<LegacyProgram>, items: seq<CopiedItem>, records: seq<ExerciseResult>)

  /**
   * One draft entry of the commit loop: an exercise found by id with
   * committed sets gets a history entry dated `date`, a summary item and a
   * session record; anything else is skipped.
   */
  function GatherEntry(g: Gathered, e: Entry, date: string,
                       parseWeight: string -> Option<real>, parseReps: string -> Option<int>): (r: Gathered)
    ensures SameButHistory(g.programs, r.programs)
    ensures r.records == g.records ==> r == g
    ensures r.records != g.records ==>
              |r.items| == |g.items| + 1 && r.items[..|g.items|] == g.items &&
              |r.records| == |g.records| + 1 && r.records[..|g.records|] == g.records &&
              var item := r.items[|g.items|];
              CopyOf(g.programs, item) &&
              item.exercise.id == e.exerciseId &&
              item.newSets == ToSave(e.sets, parseWeight, parseReps) && item.newSets != [] &&
              r.records[|g.records|] == ExerciseResult(item.exercise.id, item.exercise.name, item.newSets)
  {
    var toSave := ToSave(e.sets, parseWeight, parseReps);
    match ExerciseLocation(g.programs, e.exerciseId)
    case None => g
    case Some(loc) =>
      if toSave == [] then g
      else
        var p := g.programs[loc.0];
        var ex := p.exercises[loc.1];
        var grown := ex.(history := ex.history + [HistoryEntry(date, toSave)]);
        assert ex.history <= grown.history;
        Gathered(g.programs[loc.0 := p.(exercises := p.exercises[loc.1 := grown])],
                 g.items + [CopiedItem(grown, p.id, toSave)],
                 g.records + [ExerciseResult(ex.id, ex.name, toSave)])
  }

  /** Whether the commit loop records entry `e`: its exercise is found by id and some set commits. */
  predicate Recorded(programs: seq<LegacyProgram>, e: Entry,
                     parseWeight: string -> Option<real>, parseReps: string -> Option<int>) {
    ExerciseLocation(programs, e.exerciseId).Some? && ToSave(e.sets, parseWeight, parseReps) != []
  }

  /**
   * One commit step records the entry exactly when it is found with committed
   * sets, and then the found exercise, and only it, gains one history entry
   * dated `date` holding the committed sets.
   */
  lemma GatherEntryEffect(g: Gathered, e: Entry, date: string,
                          parseWeight: string -> Option<real>, parseReps: string -> Option<int>)
    ensures var r := GatherEntry(g, e, date, parseWeight, parseReps);
            r.records != g.records <==> Recorded(g.programs, e, parseWeight, parseReps)
    ensures Recorded(g.programs, e, parseWeight, parseReps) ==>
              var r := GatherEntry(g, e, date, parseWeight, parseReps);
              var loc := ExerciseLocation(g.programs, e.exerciseId).value;
              var ex := g.programs[loc.0].exercises[loc.1];
              r.programs[loc.0].exercises[loc.1] ==
                ex.(history := ex.history + [HistoryEntry(date, ToSave(e.sets, parseWeight, parseReps))]) &&
              forall i, j :: 0 <= i < |g.programs| && 0 <= j < |g.programs[i].exercises| && (i, j) != loc ==>
                r.programs[i].exercises[j] == g.programs[i].exercises[j]
  {
  }

  /** Equal ids in equal places give equal locations, whatever the histories. */
  lemma {:induction false} SameIdsSameLocation(a: seq<LegacyProgram>, b: seq<LegacyProgram>, id: Id)
    requires SameButHistory(a, b)
    ensures ExerciseLocation(a, id) == ExerciseLocation(b, id)
  {
    if |a| > 0 {
      var x, y := ExerciseIndex(a[0].exercises, id), ExerciseIndex(b[0].exercises, id);
      assert forall j :: 0 <= j < |a[0].exercises| ==> Grown(a[0].exercises[j], b[0].exercises[j]);
      assert x == y;
      assert SameButHistory(a[1..], b[1..]) by {
        forall i | 0 <= i < |a| - 1 ensures a[1..][i] == a[i + 1] && b[1..][i] == b[i + 1] { }
      }
      SameIdsSameLocation(a[1..], b[1..], id);
    }
  }

  /**
   * What the commit loop keeps true of its running state: the store only
   * grew histories, nothing changed without a record, and item `n` is a copy
   * taken from the store with committed sets, recorded as record `n`.
   */
  predicate FromStore(programs: seq<LegacyProgram>, g: Gathered) {
    SameButHistory(programs, g.programs) &&
    |g.items| == |g.records| &&
    (g.records == [] ==> g.programs == programs) &&
    (forall n :: 0 <= n < |g.items| ==> CopyOf(programs, g.items[n]) && g.items[n].newSets != []) &&
    forall n :: 0 <= n < |g.items| ==>
      g.records[n] == ExerciseResult(g.items[n].exercise.id, g.items[n].exercise.name, g.items[n].newSets)
  }

  /** A copy taken from a store whose histories grew is a copy of the older store too. */
  lemma CopyOfEarlier(programs: seq<LegacyProgram>, later: seq<LegacyProgram>, item: CopiedItem)
    requires SameButHistory(programs, later)
    requires CopyOf(later, item)
    ensures CopyOf(programs, item)
  {
    var i, j :| 0 <= i < |later| && 0 <= j < |later[i].exercises| &&
                later[i].id == item.programId &&
                later[i].exercises[j].id == item.exercise.id &&
                later[i].exercises[j].name == item.exercise.name &&
                later[i].exercises[j].nextTarget == item.exercise.nextTarget;
    assert Grown(programs[i].exercises[j], later[i].exercises[j]);
  }

  /** A state that grew from `before` the way one commit step allows still satisfies `FromStore`. */
  lemma FromStoreStep(programs: seq<LegacyProgram>, before: Gathered, g: Gathered, exerciseId: Id, toSave: seq<WorkSet>)
    requires FromStore(programs, before)
    requires SameButHistory(before.programs, g.programs)
    requires g.records == before.records ==> g == before
    requires g.records != before.records ==>
               |g.items| == |before.items| + 1 && g.items[..|before.items|] == before.items &&
               |g.records| == |before.records| + 1 && g.records[..|before.records|] == before.records &&
               var item := g.items[|before.items|];
               CopyOf(before.programs, item) &&
               item.exercise.id == exerciseId &&
               item.newSets == toSave && item.newSets != [] &&
               g.records[|before.records|] == ExerciseResult(item.exercise.id, item.exercise.name, item.newSets)
    ensures FromStore(programs, g)
  {
    SameButHistoryTransitive(programs, before.programs, g.programs);
    if g.records != before.records {
      var m := |before.items|;
      CopyOfEarlier(programs, before.programs, g.items[m]);
      forall n | 0 <= n < |g.items|
        ensures CopyOf(programs, g.items[n]) && g.items[n].newSets != []
        ensures g.records[n] == ExerciseResult(g.items[n].exercise.id, g.items[n].exercise.name, g.items[n].newSets)
      {
        if n < m {
          assert g.items[n] == g.items[..m][n] == before.items[n];
          assert g.records[n] == g.records[..m][n] == before.records[n];
        }
      }
    }
  }

  /** One step of the commit loop keeps `FromStore`. */
  lemma GatherEntryKeeps(programs: seq<LegacyProgram>, before: Gathered, e: Entry, date: string,
                         parseWeight: string -> Option<real>, parseReps: string -> Option<int>)
    requires FromStore(programs, before)
    ensures FromStore(programs, GatherEntry(before, e, date, parseWeight, parseReps))
  {
    var g := GatherEntry(before, e, date, parseWeight, parseReps);
    FromStoreStep(programs, before, g, e.exerciseId, ToSave(e.sets, parseWeight, parseReps));
  }

  /** The commit loop over the draft's entries, in insertion order. */
  function Gather(programs: seq<LegacyProgram>, entries: Draft, date: string,
                  parseWeight: string -> Option<real>, parseReps: string -> Option<int>): (g: Gathered)
    ensures FromStore(programs, g)
    decreases |entries|
  {
    if entries == [] then Gathered(programs, [], [])
    else
      var before := Gather(programs, entries[..|entries| - 1], date, parseWeight, parseReps);
      GatherEntryKeeps(programs, before, entries[|entries| - 1], date, parseWeight, parseReps);
      GatherEntry(before, entries[|entries| - 1], date, parseWeight, parseReps)
  }

  /** The commit loop records nothing exactly when no entry is found with committed sets. */
  lemma {:induction false} GatherRecordsNothing(programs: seq<LegacyProgram>, entries: Draft, date: string,
                                               parseWeight: string -> Option<real>, parseReps: string -> Option<int>)
    ensures Gather(programs, entries, date, parseWeight, parseReps).records == [] <==>
            forall k :: 0 <= k < |entries| ==> !Recorded(programs, entries[k], parseWeight, parseReps)
    decreases |entries|
  {
    if entries != [] {
      GatherRecordsNothing(programs, entries[..|entries| - 1], date, parseWeight, parseReps);
      GatherRecordsStep(programs, entries, date, parseWeight, parseReps);
      NoneRecordedStep(programs, entries, entries[..|entries| - 1], parseWeight, parseReps);
    }
  }

  /** No entry is recorded exactly when none of the earlier ones is and the last one is not. */
  lemma NoneRecordedStep(programs: seq<LegacyProgram>, entries: Draft, init: Draft,
                         parseWeight: string -> Option<real>, parseReps: string -> Option<int>)
    requires entries != [] && init == entries[..|entries| - 1]
    ensures (forall k :: 0 <= k < |entries| ==> !Recorded(programs, entries[k], parseWeight, parseReps)) <==>
            (forall k :: 0 <= k < |init| ==> !Recorded(programs, init[k], parseWeight, parseReps)) &&
            !Recorded(programs, entries[|entries| - 1], parseWeight, parseReps)
  {
    assert forall k :: 0 <= k < |init| ==> init[k] == entries[k];
  }

  /** One more entry leaves the records empty exactly when they were empty and the entry is not recorded. */
  lemma GatherRecordsStep(programs: seq<LegacyProgram>, entries: Draft, date: string,
                          parseWeight: string -> Option<real>, parseReps: string -> Option<int>)
    requires entries != []
    ensures var before := Gather(programs, entries[..|entries| - 1], date, parseWeight, parseReps);
            Gather(programs, entries, date, parseWeight, parseReps).records == [] <==>
            before.records == [] && !Recorded(programs, entries[|entries| - 1], parseWeight, parseReps)
  {
    var e := entries[|entries| - 1];
    var before := Gather(programs, entries[..|entries| - 1], date, parseWeight, parseReps);
    var after := GatherEntry(before, e, date, parseWeight, parseReps);
    assert Gather(programs, entries, date, parseWeight, parseReps) == after;
    SameIdsSameLocation(programs, before.programs, e.exerciseId);
    assert Recorded(before.programs, e, parseWeight, parseReps) == Recorded(programs, e, parseWeight, parseReps);
    GatherEntryEffect(before, e, date, parseWeight, parseReps);
  }

  // ---------------------------------------------------------------------------
  // generate_workout_summary

  /** The summary finds a program for the item: by its id, or else the active one. */
  predicate Known(s: LegacyState, programId: Id) {
    ProgramIndex(s.programs, programId).Some? || ActiveIndex(s).Some?
  }

  /** The progression type the summary uses for an item. */
  function KindFor(s: LegacyState, programId: Id): ProgressionType
    requires Known(s, programId)
  {
    match ProgramIndex(s.programs, programId)
    case Some(i) => s.programs[i].kind
    case None => s.programs[ActiveIndex(s).value].kind
  }

  /** One item's summary line: skipped without normal sets, otherwise the verdict on the copy's target. */
  function Preview(s: LegacyState, item: CopiedItem): (d: Option<Detail>)
    requires Known(s, item.programId)
    ensures d.None? <==> Working(item.newSets) == []
    ensures d.Some? ==> d.value == Judge(item.exercise.name, item.exercise.nextTarget, Working(item.newSets),
                                         KindFor(s, item.programId))
  {
    var ws := Working(item.newSets);
    if ws == [] then None
    else Some(Judge(item.exercise.name, item.exercise.nextTarget, ws, KindFor(s, item.programId)))
  }

  predicate AllKnown(s: LegacyState, items: seq<CopiedItem>) {
    forall n :: 0 <= n < |items| ==> Known(s, items[n].programId)
  }

  /** `generate_workout_summary` over the saved items. */
  function Summarize(s: LegacyState, items: seq<CopiedItem>): (r: Summary)
    requires AllKnown(s, items)
    ensures r.allGoalsAchieved <==> NoneMissed(r.details)
    ensures |r.details| <= |items|
    ensures r.details == Details(Previews(s, items))
    ensures forall n :: 0 <= n < |items| && Preview(s, items[n]).Some? ==> Preview(s, items[n]).value in r.details
    ensures forall m :: 0 <= m < |r.details| ==> exists n :: 0 <= n < |items| && Preview(s, items[n]) == Some(r.details[m])
  {
    Summarized(Previews(s, items))
  }

  /** The optional summary line of each item, in item order. */
  function Previews(s: LegacyState, items: seq<CopiedItem>): (r: seq<Option<Detail>>)
    requires AllKnown(s, items)
    ensures |r| == |items|
    ensures forall n :: 0 <= n < |items| ==> r[n] == Preview(s, items[n])
  {
    seq(|items|, n requires 0 <= n < |items| => Preview(s, items[n]))
  }

  /** Items copied from one list of programs find their program in any list with the same program ids. */
  lemma CopiesAreKnown(programs: seq<LegacyProgram>, s: LegacyState, items: seq<CopiedItem>)
    requires SameButHistory(programs, s.programs)
    requires forall n :: 0 <= n < |items| ==> CopyOf(programs, items[n])
    ensures AllKnown(s, items)
  {
    forall n | 0 <= n < |items| ensures ProgramIndex(s.programs, items[n].programId).Some? {
      var i, j :| 0 <= i < |programs| && 0 <= j < |programs[i].exercises| && programs[i].id == items[n].programId;
      assert s.programs[i].id == items[n].programId;
    }
  }

  // ---------------------------------------------------------------------------
  // save_workout

  /**
   * `save_workout` on the draft, with `sessionId` and `date` for the clock
   * readings: without an active program or without a committed set nothing
   * changes and the result is none; otherwise one session is appended and the
   * summary of the saved items is returned.
   */
  function Saved(s: LegacyState, draft: Draft, sessionId: Id, date: string,
                 parseWeight: string -> Option<real>, parseReps: string -> Option<int>): (r: (LegacyState, Option<Summary>))
    ensures r.1.None? ==> r.0 == s
    ensures r.1.None? <==> ActiveIndex(s).None? || Gather(s.programs, draft, date, parseWeight, parseReps).records == []
    ensures r.1.None? <==> ActiveIndex(s).None? ||
                           forall k :: 0 <= k < |draft| ==> !Recorded(s.programs, draft[k], parseWeight, parseReps)
    ensures SameButHistory(s.programs, r.0.programs)
    ensures r.0.activeProgramId == s.activeProgramId && r.0.userSetupComplete == s.userSetupComplete
    ensures r.1.Some? ==>
              var g := Gather(s.programs, draft, date, parseWeight, parseReps);
              var p := s.programs[ActiveIndex(s).value];
              r.0.programs == g.programs &&
              r.0.workoutHistory == s.workoutHistory + [WorkoutSession(sessionId, date, p.id, p.name, g.records)] &&
              AllKnown(r.0, g.items) && r.1.value == Summarize(r.0, g.items)
  {
    GatherRecordsNothing(s.programs, draft, date, parseWeight, parseReps);
    match ActiveIndex(s)
    case None => (s, None)
    case Some(i) =>
      var p := s.programs[i];
      var g := Gather(s.programs, draft, date, parseWeight, parseReps);
      if g.records == [] then (s, None)
      else
        var next := s.(programs := g.programs,
                       workoutHistory := s.workoutHistory + [WorkoutSession(sessionId, date, p.id, p.name, g.records)]);
        CopiesAreKnown(s.programs, next, g.items);
        (next, Some(Summarize(next, g.items)))
  }

  /** No stored exercise has a target. */
  predicate NoTargets(programs: seq<LegacyProgram>) {
    forall i, j :: 0 <= i < |programs| && 0 <= j < |programs[i].exercises| ==> programs[i].exercises[j].nextTarget.None?
  }

  /** Histories growing never gives an exercise a target. */
  lemma NoTargetsKept(a: seq<LegacyProgram>, b: seq<LegacyProgram>)
    requires NoTargets(a) && SameButHistory(a, b)
    ensures NoTargets(b)
  {
    forall i, j | 0 <= i < |b| && 0 <= j < |b[i].exercises| ensures b[i].exercises[j].nextTarget.None? {
      assert Grown(a[i].exercises[j], b[i].exercises[j]);
    }
  }

  /** Items copied from a store without targets are all summarised as first workouts. */
  lemma UntargetedSummary(programs: seq<LegacyProgram>, t: LegacyState, items: seq<CopiedItem>)
    requires NoTargets(programs)
    requires forall n :: 0 <= n < |items| ==> CopyOf(programs, items[n])
    requires AllKnown(t, items)
    ensures Summarize(t, items).allGoalsAchieved
    ensures forall n :: 0 <= n < |Summarize(t, items).details| ==> Summarize(t, items).details[n].outcome == FirstWorkout
  {
    var previews := seq(|items|, n requires 0 <= n < |items| => Preview(t, items[n]));
    var details := Details(previews);
    assert Summarize(t, items) == Summarized(previews);
    forall n | 0 <= n < |details| ensures details[n].outcome == FirstWorkout {
      assert Some(details[n]) in previews;
      var k :| 0 <= k < |previews| && previews[k] == Some(details[n]);
      assert CopyOf(programs, items[k]);
      var i, j :| 0 <= i < |programs| && 0 <= j < |programs[i].exercises| &&
                  programs[i].exercises[j].nextTarget == items[k].exercise.nextTarget;
    }
  }

  /**
   * The computed targets land on copies, so a store whose exercises have no
   * target (every exercise this class creates) keeps none, and every summary
   * reports every exercise as a first workout with all goals achieved.
   */
  lemma UntargetedStoreAlwaysStarts(s: LegacyState, draft: Draft, sessionId: Id, date: string,
                                    parseWeight: string -> Option<real>, parseReps: string -> Option<int>)
    requires NoTargets(s.programs)
    ensures var r := Saved(s, draft, sessionId, date, parseWeight, parseReps);
            NoTargets(r.0.programs) &&
            (r.1.Some? ==> r.1.value.allGoalsAchieved &&
                           forall n :: 0 <= n < |r.1.value.details| ==> r.1.value.details[n].outcome == FirstWorkout)
  {
    var r := Saved(s, draft, sessionId, date, parseWeight, parseReps);
    NoTargetsKept(s.programs, r.0.programs);
    if r.1.Some? {
      var g := Gather(s.programs, draft, date, parseWeight, parseReps);
      UntargetedSummary(s.programs, r.0, g.items);
    }
  }

  /**
   * A one-entry draft whose exercise is found and has committed sets: the
   * stored exercise's history gains exactly one entry, dated `date`, holding
   * those sets, while its target stays as it was.
   */
  lemma SavedSetsJoinHistory(s: LegacyState, e: Entry, sessionId: Id, date: string,
                             parseWeight: string -> Option<real>, parseReps: string -> Option<int>)
    requires ActiveIndex(s).Some?
    requires ExerciseLocation(s.programs, e.exerciseId).Some?
    requires ToSave(e.sets, parseWeight, parseReps) != []
    ensures var loc := ExerciseLocation(s.programs, e.exerciseId).value;
            var r := Saved(s, [e], sessionId, date, parseWeight, parseReps);
            var before := s.programs[loc.0].exercises[loc.1];
            r.1.Some? &&
            r.0.programs[loc.0].exercises[loc.1] ==
              before.(history := before.history + [HistoryEntry(date, ToSave(e.sets, parseWeight, parseReps))])
  {
    var loc := ExerciseLocation(s.programs, e.exerciseId).value;
    var toSave := ToSave(e.sets, parseWeight, parseReps);
    var start := Gathered(s.programs, [], []);
    assert [e][..0] == [];
    assert Gather(s.programs, [], date, parseWeight, parseReps) == start;
    var g := GatherEntry(start, e, date, parseWeight, parseReps);
    assert Gather(s.programs, [e], date, parseWeight, parseReps) == g;
    var p := s.programs[loc.0];
    var ex := p.exercises[loc.1];
    assert g.programs == s.programs[loc.0 := p.(exercises := p.exercises[loc.1 := ex.(history := ex.history + [HistoryEntry(date, toSave)])])];
    assert g.records != [];
  }

  // ---------------------------------------------------------------------------
  // get_progress_chart_data

  /**
   * `get_progress_chart_data`: none for an unknown exercise or an empty
   * history; otherwise the exercise's own history in stored order (not
   * sorted), one legacy 1RM per entry.
   */
  function ChartData(s: LegacyState, exerciseId: Id): (r: Option<HistoryRules.Chart>)
    ensures r.None? <==> ExerciseLocation(s.programs, exerciseId).None? ||
                         var loc := ExerciseLocation(s.programs, exerciseId).value;
                         s.programs[loc.0].exercises[loc.1].history == []
    ensures r.Some? ==>
              var loc := ExerciseLocation(s.programs, exerciseId).value;
              var h := s.programs[loc.0].exercises[loc.1].history;
              |r.value.labels| == |r.value.data| == |h| &&
              forall n :: 0 <= n < |h| ==> r.value.labels[n] == h[n].date && r.value.data[n] == MaxEstimate(Working(h[n].sets))
  {
    match ExerciseLocation(s.programs, exerciseId)
    case None => None
    case Some(loc) =>
      var h := s.programs[loc.0].exercises[loc.1].history;
      if h == [] then None
      else Some(HistoryRules.Chart(seq(|h|, n requires 0 <= n < |h| => h[n].date),
                                   seq(|h|, n requires 0 <= n < |h| => MaxEstimate(Working(h[n].sets)))))
  }

  // ---------------------------------------------------------------------------
  // The class

  class ProgressiveOverloadLogic {
    /** `app_data`. */
    var data: LegacyState
    /** `current_workout_state`, held in the draft object. */
    const session: SessionStates.SessionState

    predicate Valid()
      reads this, session
    {
      session.Valid()
    }

    /** Construction from a loaded store: the post-load rule, and a seeded draft only once set up. */
    constructor(loaded: LegacyState)
      ensures Valid() && fresh(session)
      ensures data == AfterLoad(loaded)
      ensures session.state == if loaded.userSetupComplete then Seed(SeedIds(data)) else []
    {
      data := AfterLoad(loaded);
      session := new SessionStates.SessionState();
      new;
      if loaded.userSetupComplete {
        session.InitForIds(SeedIds(data));
      }
    }

    /** `init_current_workout`. */
    method InitCurrentWorkout()
      modifies session
      ensures Valid()
      ensures session.state == Seed(SeedIds(data))
    {
      session.InitForIds(SeedIds(data));
    }

    /** `create_new_program`: appended, made active and seeded, whatever the name's length. */
    method CreateNewProgram(name: string, kind: ProgressionType, newId: Id)
      requires Valid()
      modifies this, session
      ensures Valid()
      ensures data == AppendProgram(old(data), name, kind, newId)
      ensures session.state == Seed(SeedIds(data))
    {
      data := AppendProgram(data, name, kind, newId);
      InitCurrentWorkout();
    }

    /** `delete_program`: refused with at most one program; otherwise the draft is reseeded. */
    method DeleteProgram(programId: Id) returns (ok: bool)
      requires Valid()
      modifies this, session
      ensures Valid()
      ensures (ok, data) == LegacyData.DeleteProgram(old(data), programId)
      ensures ok ==> session.state == Seed(SeedIds(data))
      ensures !ok ==> session.state == old(session.state)
    {
      if |data.programs| <= 1 {
        return false;
      }
      var remaining := WithoutProgram(data.programs, programId);
      data := data.(programs := remaining);
      if data.activeProgramId == Some(programId) {
        data := data.(activeProgramId := if |remaining| > 0 then Some(remaining[0].id) else None);
      }
      InitCurrentWorkout();
      return true;
    }

    /** `select_program`. */
    method SelectProgram(programId: Id)
      requires Valid()
      modifies this, session
      ensures Valid()
      ensures data == LegacyData.SelectProgram(old(data), programId)
      ensures session.state == Seed(SeedIds(data))
    {
      data := data.(activeProgramId := Some(programId));
      InitCurrentWorkout();
    }

    /** `add_exercise_to_program`: appended to the active program, with an empty draft list. */
    method AddExerciseToProgram(name: string, newId: Id)
      requires Valid()
      modifies this, session
      ensures Valid()
      ensures data == AddExercise(old(data), name, newId)
      ensures ActiveIndex(old(data)).None? ==> session.state == old(session.state)
      ensures ActiveIndex(old(data)).Some? ==>
                session.state == if Lookup(old(session.state), newId).Some? then old(session.state)
                                 else Put(old(session.state), newId, [])
    {
      var active := ActiveIndex(data);
      if active.None? {
        return;
      }
      var i := active.value;
      data := WithExercises(data, i, data.programs[i].exercises + [LegacyExercise(newId, name, [], None)]);
      if Lookup(session.state, newId).None? {
        session.state := Put(session.state, newId, []);
      }
    }

    /** `delete_exercise`: gone from the active program and from the draft. */
    method DeleteExercise(exerciseId: Id)
      requires Valid()
      modifies this, session
      ensures Valid()
      ensures data == LegacyData.DeleteExercise(old(data), exerciseId)
      ensures ActiveIndex(old(data)).None? ==> session.state == old(session.state)
      ensures ActiveIndex(old(data)).Some? ==> session.state == Remove(old(session.state), exerciseId)
    {
      var active := ActiveIndex(data);
      if active.None? {
        return;
      }
      var i := active.value;
      data := WithExercises(data, i, WithoutExercise(data.programs[i].exercises, exerciseId));
      session.state := Remove(session.state, exerciseId);
    }

    /** `add_set_to_workout`: a blank normal set at the end of the exercise's list. */
    method AddSetToWorkout(exerciseId: Id, setId: Id)
      requires Valid()
      modifies session
      ensures Valid()
      ensures session.state == Put(old(session.state), exerciseId, Get(old(session.state), exerciseId) + [BlankSet(setId)])
    {
      session.AddSet(exerciseId, setId);
    }

    /** `delete_set_from_workout`: the exercise must be in the draft (the source indexes it directly). */
    method DeleteSetFromWorkout(exerciseId: Id, setId: Id)
      requires Valid()
      requires Lookup(session.state, exerciseId).Some?
      modifies session
      ensures Valid()
      ensures session.state == Put(old(session.state), exerciseId, WithoutSet(Get(old(session.state), exerciseId), setId))
    {
      session.DeleteSet(exerciseId, setId);
    }

    /** `update_set_in_workout`: the exercise must be in the draft; a missing set changes nothing. */
    method UpdateSetInWorkout(exerciseId: Id, setId: Id, field: Field, value: string)
      requires Valid()
      requires Lookup(session.state, exerciseId).Some?
      modifies session
      ensures Valid()
      ensures session.state == Put(old(session.state), exerciseId, SetField(Get(old(session.state), exerciseId), setId, field, value))
    {
      session.UpdateSet(exerciseId, setId, field, value);
    }

    /** The commit loop of `save_workout` over the draft's entries. */
    static method Commit(programs: seq<LegacyProgram>, entries: Draft, date: string,
                         parseWeight: string -> Option<real>, parseReps: string -> Option<int>)
      returns (g: Gathered)
      ensures g == Gather(programs, entries, date, parseWeight, parseReps)
    {
      g := Gathered(programs, [], []);
      var k := 0;
      while k < |entries|
        invariant 0 <= k <= |entries|
        invariant g == Gather(programs, entries[..k], date, parseWeight, parseReps)
      {
        assert entries[..k + 1][..k] == entries[..k];
        g := GatherEntry(g, entries[k], date, parseWeight, parseReps);
        k := k + 1;
      }
      assert entries[..k] == entries;
    }

    /**
     * `save_workout`, with `sessionId` and `date` for the clock readings and
     * `parseWeight`/`parseReps` for the number conversions: the commit loop
     * over the draft, then the session, the summary and a fresh draft.
     */
    method SaveWorkout(sessionId: Id, date: string,
                       parseWeight: string -> Option<real>, parseReps: string -> Option<int>)
      returns (r: Option<Summary>)
      requires Valid()
      modifies this, session
      ensures Valid()
      ensures (data, r) == Saved(old(data), old(session.state), sessionId, date, parseWeight, parseReps)
      ensures r.Some? ==> session.state == Seed(SeedIds(data))
      ensures r.None? ==> session.state == old(session.state)
    {
      var active := ActiveIndex(data);
      if active.None? {
        return None;
      }
      var p := data.programs[active.value];
      var g := Commit(data.programs, session.state, date, parseWeight, parseReps);
      if g.records == [] {
        return None;
      }
      var before := data;
      data := data.(programs := g.programs,
                    workoutHistory := data.workoutHistory + [WorkoutSession(sessionId, date, p.id, p.name, g.records)]);
      CopiesAreKnown(before.programs, data, g.items);
      var summary := GenerateWorkoutSummary(g.items);
      InitCurrentWorkout();
      return Some(summary);
    }

    /** `generate_workout_summary`: read-only over the saved items. */
    method GenerateWorkoutSummary(items: seq<CopiedItem>) returns (r: Summary)
      requires AllKnown(data, items)
      ensures r == Summarize(data, items)
    {
      var s := data;
      r := Tally(seq(|items|, n requires 0 <= n < |items| => Preview(s, items[n])));
    }

    /** `delete_history_session`: session gone, same-date entries pruned, targets untouched. */
    method DeleteHistorySession(sessionId: Id)
      modifies this
      ensures data == LegacyData.DeleteHistorySession(old(data), sessionId)
    {
      var found := HistoryRules.SessionIndex(data.workoutHistory, sessionId);
      if found.None? {
        return;
      }
      var session := data.workoutHistory[found.value];
      var programs := PruneHistories(data.programs, session);
      data := data.(workoutHistory := HistoryRules.WithoutSession(data.workoutHistory, sessionId), programs := programs);
    }

    /** `get_progress_chart_data`: one label and one 1RM per history entry of the exercise. */
    method GetProgressChartData(exerciseId: Id) returns (r: Option<HistoryRules.Chart>)
      ensures r == ChartData(data, exerciseId)
    {
      var loc := ExerciseLocation(data.programs, exerciseId);
      if loc.None? {
        return None;
      }
      var h := data.programs[loc.value.0].exercises[loc.value.1].history;
      if h == [] {
        return None;
      }
      var labels := seq(|h|, m requires 0 <= m < |h| => h[m].date);
      var normal := seq(|h|, m requires 0 <= m < |h| => Working(h[m].sets));
      var values := OneRepMaxes(normal);
      var chart := ChartData(data, exerciseId).value;
      assert chart.labels == labels;
      assert chart.data == values;
      return Some(HistoryRules.Chart(labels, values));
    }

    /** `reset_all_data`: the empty state and an empty draft. */
    method ResetAllData()
      requires Valid()
      modifies this, session
      ensures Valid()
      ensures data == EmptyLegacyState && session.state == []
    {
      data := EmptyLegacyState;
      session.Reset();
    }
  }
}
