/**
 * `SessionState`: the in-progress workout draft, owned by one object whose
 * methods replace or edit the draft in place.
 */
module SessionStates {
  import opened Wrappers
  import opened Types
  import opened Drafts

  /** The draft keys `init_for_program` creates: the program's exercise ids, or none without a program. */
  function SeedIds(program: Option<Program>): seq<Id> {
    if program.Some? then ExerciseIds(program.value.exercises) else []
  }

  /** Raising a flag on a set that exists makes the draft report validation errors. */
  lemma RaisedFlagIsReported(d: Draft, exerciseId: Id, setId: Id, field: Field)
    requires Drafts.Valid(d)
    requires exists j :: 0 <= j < |Get(d, exerciseId)| && Get(d, exerciseId)[j].id == setId
    requires Lookup(d, exerciseId).Some?
    ensures AnyFlagged(Put(d, exerciseId, SetError(Get(d, exerciseId), setId, field, true)))
  {
    var sets := SetError(Get(d, exerciseId), setId, field, true);
    var r := Put(d, exerciseId, sets);
    var j := SetIndex(Get(d, exerciseId), setId).value;
    assert Flagged(sets[j]) by {
      assert sets[j].errors[field];
    }
    var i := Find(r, exerciseId).value;
    assert r[i].sets == sets;
  }

  /** A freshly seeded draft reports no validation errors. */
  lemma SeedIsUnflagged(ids: seq<Id>)
    ensures !AnyFlagged(Seed(ids))
  {
    var d := Seed(ids);
    forall i | 0 <= i < |d| ensures d[i].sets == [] {
      var k := d[i].exerciseId;
      var f := Find(d, k);
      assert f.Some?;
      assert f.value == i;
      assert Lookup(d, k) == Some(d[i].sets);
    }
    assert !AnyFlagged(d);
  }

  class SessionState {
    /** `current_workout_state`. */
    var state: Draft

    predicate Valid()
      reads this
    {
      Drafts.Valid(state)
    }

    constructor()
      ensures state == []
      ensures Valid()
    {
      state := [];
    }

    /** `reset`: the draft is empty. */
    method Reset()
      modifies this
      ensures state == []
      ensures Valid()
    {
      state := [];
    }

    /** One empty list per id, in order, and nothing else. */
    method InitForIds(ids: seq<Id>)
      modifies this
      ensures Valid()
      ensures state == Seed(ids)
      ensures forall k :: Lookup(state, k) == if k in ids then Some([]) else None
    {
      Reset();
      var i := 0;
      while i < |ids|
        invariant 0 <= i <= |ids|
        invariant state == Seed(ids[..i])
      {
        assert ids[..i + 1][..i] == ids[..i];
        state := Put(state, ids[i], []);
        i := i + 1;
      }
      assert ids[..i] == ids;
    }

    /** `init_for_program`: one empty list per exercise of the program, nothing else. */
    method InitForProgram(program: Option<Program>)
      modifies this
      ensures Valid()
      ensures state == Seed(SeedIds(program))
      ensures forall k :: Lookup(state, k) == if k in SeedIds(program) then Some([]) else None
    {
      InitForIds(SeedIds(program));
    }

    /** `add_set` with `setId` for the clock-derived id: one blank normal set appended, the list created if missing. */
    method AddSet(exerciseId: Id, setId: Id)
      requires Valid()
      modifies this
      ensures Valid()
      ensures state == Put(old(state), exerciseId, Get(old(state), exerciseId) + [BlankSet(setId)])
      ensures Lookup(state, exerciseId) == Some(Get(old(state), exerciseId) + [BlankSet(setId)])
      ensures forall k :: k != exerciseId ==> Lookup(state, k) == Lookup(old(state), k)
    {
      if Lookup(state, exerciseId).None? {
        state := Put(state, exerciseId, []);
      }
      state := Put(state, exerciseId, Get(state, exerciseId) + [BlankSet(setId)]);
    }

    /** `delete_set`: every set with that id leaves the list; an unknown exercise ends up with an empty list. */
    method DeleteSet(exerciseId: Id, setId: Id)
      requires Valid()
      modifies this
      ensures Valid()
      ensures state == Put(old(state), exerciseId, WithoutSet(Get(old(state), exerciseId), setId))
      ensures Lookup(state, exerciseId) == Some(WithoutSet(Get(old(state), exerciseId), setId))
      ensures forall k :: k != exerciseId ==> Lookup(state, k) == Lookup(old(state), k)
    {
      state := Put(state, exerciseId, WithoutSet(Get(state, exerciseId), setId));
    }

    /** The position of the first set with id `setId` in `sets`, found by a scan. */
    static method ScanForSet(sets: seq<DraftSet>, setId: Id) returns (r: Option<nat>)
      ensures r == SetIndex(sets, setId)
    {
      var j := 0;
      while j < |sets|
        invariant 0 <= j <= |sets|
        invariant forall k :: 0 <= k < j ==> sets[k].id != setId
      {
        if sets[j].id == setId {
          return Some(j);
        }
        j := j + 1;
      }
      return None;
    }

    /** `update_set`: the named field of the first set with that id takes the value; a missing exercise or set changes nothing. */
    method UpdateSet(exerciseId: Id, setId: Id, field: Field, value: string)
      requires Valid()
      modifies this
      ensures Valid()
      ensures Lookup(old(state), exerciseId).None? ==> state == old(state)
      ensures Lookup(old(state), exerciseId).Some? ==>
                state == Put(old(state), exerciseId, SetField(Get(old(state), exerciseId), setId, field, value))
    {
      if Lookup(state, exerciseId).None? {
        return;
      }
      var sets := Get(state, exerciseId);
      var found := ScanForSet(sets, setId);
      if found.Some? {
        var j := found.value;
        state := Put(state, exerciseId, sets[j := WithField(sets[j], field, value)]);
      } else {
        assert Put(state, exerciseId, sets) == state by {
          var i := Find(state, exerciseId).value;
          assert state[i := Entry(exerciseId, sets)] == state;
        }
      }
    }

    /** `update_set_error`: the first set with that id records the flag for the field; nothing else changes. */
    method UpdateSetError(exerciseId: Id, setId: Id, field: Field, hasError: bool)
      requires Valid()
      modifies this
      ensures Valid()
      ensures Lookup(old(state), exerciseId).None? ==> state == old(state)
      ensures Lookup(old(state), exerciseId).Some? ==>
                state == Put(old(state), exerciseId, SetError(Get(old(state), exerciseId), setId, field, hasError))
    {
      if Lookup(state, exerciseId).None? {
        return;
      }
      var sets := Get(state, exerciseId);
      var found := ScanForSet(sets, setId);
      if found.Some? {
        var j := found.value;
        state := Put(state, exerciseId, sets[j := WithError(sets[j], field, hasError)]);
      } else {
        assert Put(state, exerciseId, sets) == state by {
          var i := Find(state, exerciseId).value;
          assert state[i := Entry(exerciseId, sets)] == state;
        }
      }
    }

    /** `has_validation_errors`: some draft set is flagged on weight or reps. */
    method HasValidationErrors() returns (r: bool)
      ensures r <==> AnyFlagged(state)
    {
      var i := 0;
      while i < |state|
        invariant 0 <= i <= |state|
        invariant forall a, b :: 0 <= a < i && 0 <= b < |state[a].sets| ==> !Flagged(state[a].sets[b])
      {
        var sets := state[i].sets;
        var j := 0;
        while j < |sets|
          invariant 0 <= j <= |sets|
          invariant forall b :: 0 <= b < j ==> !Flagged(sets[b])
        {
          if Flagged(sets[j]) {
            return true;
          }
          j := j + 1;
        }
        i := i + 1;
      }
      return false;
    }
  }
}
