/**
 * The in-progress workout draft (`current_workout_state`): a Python dict from
 * exercise id to the ordered list of that exercise's draft sets. Python dicts
 * keep insertion order, and one legacy save iterates it, so the draft is an
 * association list with distinct keys, in insertion order.
 */
module Drafts {
  import opened Wrappers
  import opened Types
  import opened Search

  datatype Entry = Entry(exerciseId: Id, sets: seq<DraftSet>)

  type Draft = seq<Entry>

  /** Dict keys are distinct. */
  predicate Valid(d: Draft) {
    forall i, j :: 0 <= i < j < |d| ==> d[i].exerciseId != d[j].exerciseId
  }

  /** The position of key `k`, if present. */
  function Find(d: Draft, k: Id): (r: Option<nat>)
    ensures r.Some? ==> r.value < |d| && d[r.value].exerciseId == k
    ensures r.Some? ==> forall i :: 0 <= i < r.value ==> d[i].exerciseId != k
    ensures r.None? <==> forall i :: 0 <= i < |d| ==> d[i].exerciseId != k
  {
    if |d| == 0 then None
    else if d[0].exerciseId == k then Some(0)
    else match Find(d[1..], k)
      case None => None
      case Some(i) => Some(i + 1)
  }

  /** `k in d` and `d[k]`. */
  function Lookup(d: Draft, k: Id): Option<seq<DraftSet>> {
    match Find(d, k)
    case None => None
    case Some(i) => Some(d[i].sets)
  }

  /** The sets stored under `k`, or none when the key is absent. */
  function Get(d: Draft, k: Id): seq<DraftSet> {
    Lookup(d, k).GetOr([])
  }

  /** The key set. */
  function KeySet(d: Draft): (r: set<Id>)
    ensures forall k :: k in r <==> Lookup(d, k).Some?
  {
    set i | 0 <= i < |d| :: d[i].exerciseId
  }

  /** `d[k] = v`: an existing key keeps its position, a new key goes last. */
  function Put(d: Draft, k: Id, v: seq<DraftSet>): (r: Draft)
    requires Valid(d)
    ensures Valid(r)
    ensures Lookup(r, k) == Some(v)
    ensures forall k' :: k' != k ==> Lookup(r, k') == Lookup(d, k')
    ensures Lookup(d, k).Some? ==> |r| == |d|
    ensures Lookup(d, k).None? ==> r == d + [Entry(k, v)]
  {
    match Find(d, k)
    case Some(i) =>
      var r := d[i := Entry(k, v)];
      assert Find(r, k) == Some(i) by {
        assert r[i].exerciseId == k;
      }
      assert forall k' :: k' != k ==> Find(r, k') == Find(d, k') by {
        forall k' | k' != k ensures Find(r, k') == Find(d, k') {
          FindAgrees(d, r, k');
        }
      }
      r
    case None =>
      var r := d + [Entry(k, v)];
      assert Find(r, k) == Some(|d|) by {
        assert r[|d|].exerciseId == k;
      }
      assert forall k' :: k' != k ==> Find(r, k') == Find(d, k') by {
        forall k' | k' != k ensures Find(r, k') == Find(d, k') {
          FindAgrees(d, r, k');
        }
      }
      r
  }

  /** Two drafts that place every key other than `k` alike find it alike. */
  lemma FindAgrees(d: Draft, r: Draft, k: Id)
    requires forall i :: 0 <= i < |d| && i < |r| ==> (d[i].exerciseId == k <==> r[i].exerciseId == k)
    requires forall i :: 0 <= i < |d| && i < |r| && d[i].exerciseId == k ==> d[i] == r[i]
    requires |d| <= |r|
    requires forall i :: |d| <= i < |r| ==> r[i].exerciseId != k
    ensures Find(r, k) == Find(d, k)
    ensures Lookup(r, k) == Lookup(d, k)
  {
    if Find(d, k).Some? {
      var i := Find(d, k).value;
      assert r[i].exerciseId == k;
      assert Find(r, k).Some?;
    }
  }

  lemma LookupCons(e: Entry, t: Draft, k: Id)
    ensures Lookup([e] + t, k) == if e.exerciseId == k then Some(e.sets) else Lookup(t, k)
  {
    assert ([e] + t)[1..] == t;
  }

  /** `del d[k]` when present; nothing otherwise. */
  function Remove(d: Draft, k: Id): (r: Draft)
    requires Valid(d)
    ensures Valid(r)
    ensures Lookup(r, k) == None
    ensures forall k' :: k' != k ==> Lookup(r, k') == Lookup(d, k')
    ensures |r| <= |d|
  {
    if |d| == 0 then []
    else
      var rest := Remove(d[1..], k);
      if d[0].exerciseId == k then
        assert Lookup(d[1..], k) == None;
        forall k' | k' != k ensures Lookup(rest, k') == Lookup(d, k') {
          assert Find(d, k') == (match Find(d[1..], k') case None => None case Some(i) => Some(i + 1));
        }
        rest
      else
        var r := [d[0]] + rest;
        assert r[1..] == rest;
        forall k' | k' != k ensures Lookup(r, k') == Lookup(d, k') {
          LookupCons(d[0], rest, k');
          LookupCons(d[0], d[1..], k');
          assert [d[0]] + d[1..] == d;
        }
        forall i, j | 0 <= i < j < |r| ensures r[i].exerciseId != r[j].exerciseId {
          if i == 0 {
            assert Lookup(rest, r[j].exerciseId) == Lookup(d[1..], r[j].exerciseId);
            assert Find(d[1..], r[j].exerciseId).Some?;
          }
        }
        r
  }

  /** The draft with an empty list for each id, built key by key. */
  function Seed(ids: seq<Id>): (r: Draft)
    ensures Valid(r)
    ensures forall k :: Lookup(r, k) == if k in ids then Some([]) else None
  {
    if ids == [] then []
    else Put(Seed(ids[..|ids| - 1]), ids[|ids| - 1], [])
  }

  /** The position of the first set whose id is `setId`, if any. */
  function SetIndex(sets: seq<DraftSet>, setId: Id): (r: Option<nat>)
    ensures r.Some? ==> r.value < |sets| && sets[r.value].id == setId
    ensures r.Some? ==> forall i :: 0 <= i < r.value ==> sets[i].id != setId
    ensures r.None? <==> forall i :: 0 <= i < |sets| ==> sets[i].id != setId
  {
    FirstIndex(sets, (s: DraftSet) => s.id == setId)
  }

  /** The sets whose id differs from `setId`, in order. */
  function WithoutSet(sets: seq<DraftSet>, setId: Id): (r: seq<DraftSet>)
    ensures |r| <= |sets|
    ensures forall s :: s in r <==> s in sets && s.id != setId
    ensures (forall i :: 0 <= i < |sets| ==> sets[i].id != setId) ==> r == sets
  {
    Filter(sets, (s: DraftSet) => s.id != setId)
  }

  /** Removing a set id from a concatenation removes it from each part in turn; one set stays exactly when its id differs. */
  lemma WithoutSetAppend(a: seq<DraftSet>, b: seq<DraftSet>, setId: Id)
    ensures WithoutSet(a + b, setId) == WithoutSet(a, setId) + WithoutSet(b, setId)
    ensures forall x :: WithoutSet([x], setId) == if x.id != setId then [x] else []
  {
    FilterAppend(a, b, (s: DraftSet) => s.id != setId);
  }

  /** A set is flagged when its weight or its reps entry is marked as an error. */
  predicate Flagged(s: DraftSet) {
    (WeightField in s.errors && s.errors[WeightField]) || (RepsField in s.errors && s.errors[RepsField])
  }

  /** Some draft set of some exercise carries a weight or reps error. */
  predicate AnyFlagged(d: Draft) {
    exists i, j :: 0 <= i < |d| && 0 <= j < |d[i].sets| && Flagged(d[i].sets[j])
  }

  /** The blank draft set `add_set` appends. */
  function BlankSet(setId: Id): DraftSet {
    DraftSet(setId, Normal, "", "", map[])
  }

  /** `s[field] = value`. */
  function WithField(s: DraftSet, field: Field, value: string): DraftSet {
    match field
    case WeightField => s.(weight := value)
    case RepsField => s.(reps := value)
  }

  /** The error flag of `field` set to `flag`; a set without flags gets them created first. */
  function WithError(s: DraftSet, field: Field, flag: bool): DraftSet {
    s.(errors := s.errors[field := flag])
  }

  /** The edit `f` applied to the first set whose id is `setId`; the list as it was when none matches. */
  function EditFirst(sets: seq<DraftSet>, setId: Id, f: DraftSet -> DraftSet): (r: seq<DraftSet>)
    ensures |r| == |sets|
    ensures SetIndex(sets, setId).None? ==> r == sets
    ensures SetIndex(sets, setId).Some? ==> r == sets[SetIndex(sets, setId).value := f(sets[SetIndex(sets, setId).value])]
  {
    match SetIndex(sets, setId)
    case None => sets
    case Some(j) => sets[j := f(sets[j])]
  }

  /** `update_set` on one list: the named field of the first matching set takes `value`. */
  function SetField(sets: seq<DraftSet>, setId: Id, field: Field, value: string): (r: seq<DraftSet>)
    ensures |r| == |sets|
  {
    EditFirst(sets, setId, s => WithField(s, field, value))
  }

  /** `update_set_error` on one list: the first matching set's flag for `field` becomes `flag`. */
  function SetError(sets: seq<DraftSet>, setId: Id, field: Field, flag: bool): (r: seq<DraftSet>)
    ensures |r| == |sets|
  {
    EditFirst(sets, setId, s => WithError(s, field, flag))
  }

  /** `i` is the position of the first set whose id is `setId`. */
  predicate FirstWithId(sets: seq<DraftSet>, setId: Id, i: int) {
    0 <= i < |sets| && sets[i].id == setId && forall k :: 0 <= k < i ==> sets[k].id != setId
  }

  /**
   * Editing a field touches only the first set with that id, and in it only
   * that field; without such a set the list is unchanged.
   */
  lemma SetFieldChangesOneField(sets: seq<DraftSet>, setId: Id, field: Field, value: string)
    ensures var r := SetField(sets, setId, field, value);
            (forall i :: 0 <= i < |sets| && !FirstWithId(sets, setId, i) ==> r[i] == sets[i]) &&
            ((forall i :: 0 <= i < |sets| ==> sets[i].id != setId) ==> r == sets) &&
            (forall i :: FirstWithId(sets, setId, i) ==>
               r[i].id == sets[i].id && r[i].kind == sets[i].kind && r[i].errors == sets[i].errors &&
               (if field == WeightField then r[i].weight == value && r[i].reps == sets[i].reps
                else r[i].reps == value && r[i].weight == sets[i].weight))
  {
    if SetIndex(sets, setId).Some? {
      FirstIsUnique(sets, setId);
    }
  }

  /**
   * Recording an error touches only the first set with that id: its flag for
   * `field` becomes `flag`, every other flag and every other field stays.
   */
  lemma SetErrorRecordsFlag(sets: seq<DraftSet>, setId: Id, field: Field, flag: bool)
    ensures var r := SetError(sets, setId, field, flag);
            (forall i :: 0 <= i < |sets| && !FirstWithId(sets, setId, i) ==> r[i] == sets[i]) &&
            ((forall i :: 0 <= i < |sets| ==> sets[i].id != setId) ==> r == sets) &&
            (forall i :: FirstWithId(sets, setId, i) ==>
               r[i].id == sets[i].id && r[i].kind == sets[i].kind &&
               r[i].weight == sets[i].weight && r[i].reps == sets[i].reps &&
               field in r[i].errors && r[i].errors[field] == flag &&
               (forall g :: g != field ==> (g in r[i].errors <==> g in sets[i].errors)) &&
               (forall g :: g != field && g in sets[i].errors ==> r[i].errors[g] == sets[i].errors[g]))
  {
    if SetIndex(sets, setId).Some? {
      FirstIsUnique(sets, setId);
    }
  }

  /** The first set with an id is the one `SetIndex` finds. */
  lemma FirstIsUnique(sets: seq<DraftSet>, setId: Id)
    ensures forall i :: FirstWithId(sets, setId, i) <==> SetIndex(sets, setId) == Some(i)
  {
    forall i | FirstWithId(sets, setId, i) ensures SetIndex(sets, setId) == Some(i) {
      assert SetIndex(sets, setId).Some?;
    }
  }
}
