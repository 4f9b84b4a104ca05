/**
 * The value-level rewrites behind the workout store's actions: each action
 * replaces the active workout's `exercises` (and the `sets` inside one of
 * them) by an appended, filtered or mapped copy, selecting by id. These are
 * pure; the store (WorkoutStore) applies them to its fields.
 */
module SessionEdits {
  import opened Wrappers
  import opened WorkoutTypes
  import opened Seqs

  /** A normal, incomplete set with no rest time and no notes. */
  function BlankSet(id: Id, weight: int, reps: int): WorkoutSet {
    WorkoutSet(id, weight, reps, Normal, false, None, None)
  }

  /** The set `addSet` appends: the last set's weight and reps, or 0 and 0 when there is none. */
  function CarriedSet(sets: seq<WorkoutSet>, id: Id): WorkoutSet {
    if sets == [] then BlankSet(id, 0, 0)
    else BlankSet(id, sets[|sets| - 1].weight, sets[|sets| - 1].reps)
  }

  /** A new workout entry for `exercise`, holding one blank set. */
  function NewWorkoutExercise(id: Id, exercise: Exercise, setId: Id): WorkoutExercise {
    WorkoutExercise(id, exercise, [BlankSet(setId, 0, 0)])
  }

  /** How many entries of `es` carry the id `id`. */
  function CountId(es: seq<WorkoutExercise>, id: Id): (n: nat)
    ensures n <= |es|
  {
    if es == [] then 0 else (if es[0].id == id then 1 else 0) + CountId(es[1..], id)
  }

  // ---------------------------------------------------------------------
  // Well-formedness: the identifier discipline the store maintains.
  // ---------------------------------------------------------------------

  /** No two exercise entries share an id. */
  predicate ExerciseIdsDistinct(es: seq<WorkoutExercise>) {
    forall i, k :: 0 <= i < k < |es| ==> es[i].id != es[k].id
  }

  /** The ids of `sets`, with their multiplicities. */
  function SetIds(sets: seq<WorkoutSet>): multiset<Id> {
    if sets == [] then multiset{} else multiset{sets[0].id} + SetIds(sets[1..])
  }

  /** Every entry id and every set id in `es`, with their multiplicities. */
  function IdsOf(es: seq<WorkoutExercise>): multiset<Id> {
    if es == [] then multiset{} else multiset{es[0].id} + SetIds(es[0].sets) + IdsOf(es[1..])
  }

  /** No id occurs twice. */
  predicate NoRepeats(m: multiset<Id>) {
    forall x | x in m :: m[x] <= 1
  }

  /**
   * The exercises of a workout in which no id, entry id or set id, occurs
   * twice, and every id was handed out by `bound`, the generator's last id.
   */
  predicate WellFormed(es: seq<WorkoutExercise>, bound: nat) {
    && NoRepeats(IdsOf(es))
    && forall x :: x in IdsOf(es) ==> x <= bound
  }

  /** An entry id occurs in the ids at least as often as entries carry it. */
  lemma {:induction false} CountIdAtMostIds(es: seq<WorkoutExercise>, x: Id)
    ensures CountId(es, x) <= IdsOf(es)[x]
  {
    if es != [] {
      CountIdAtMostIds(es[1..], x);
    }
  }

  /** Entries `i` and `k` sharing an id make that id's count at least two. */
  lemma {:induction false} CountIdPair(es: seq<WorkoutExercise>, i: nat, k: nat)
    requires i < k < |es|
    ensures es[i].id == es[k].id ==> CountId(es, es[i].id) >= 2
  {
    if i == 0 {
      CountIdPositive(es[1..], k - 1);
    } else {
      CountIdPair(es[1..], i - 1, k - 1);
    }
  }

  /** An id some entry carries has a positive count. */
  lemma {:induction false} CountIdPositive(es: seq<WorkoutExercise>, k: nat)
    requires k < |es|
    ensures CountId(es, es[k].id) >= 1
  {
    if k > 0 {
      CountIdPositive(es[1..], k - 1);
    }
  }

  /** In well-formed exercises no two entries share an id. */
  lemma WellFormedEntryIdsDistinct(es: seq<WorkoutExercise>, bound: nat)
    requires WellFormed(es, bound)
    ensures ExerciseIdsDistinct(es)
  {
    forall i, k | 0 <= i < k < |es| ensures es[i].id != es[k].id {
      CountIdPair(es, i, k);
      CountIdAtMostIds(es, es[i].id);
    }
  }

  /** A larger bound keeps a well-formed sequence well-formed. */
  lemma WellFormedMonotone(es: seq<WorkoutExercise>, bound: nat, bound': nat)
    requires WellFormed(es, bound) && bound <= bound'
    ensures WellFormed(es, bound')
  {
  }

  /** The ids of a sequence of sets with one more at its end. */
  lemma {:induction false} SetIdsAppend(sets: seq<WorkoutSet>, s: WorkoutSet)
    ensures SetIds(sets + [s]) == SetIds(sets) + multiset{s.id}
  {
    var t := sets + [s];
    if sets == [] {
      assert t[1..] == [];
    } else {
      assert SetIds(t) == multiset{sets[0].id} + SetIds(sets[1..] + [s]) by {
        assert t[0] == sets[0] && t[1..] == sets[1..] + [s];
      }
      SetIdsAppend(sets[1..], s);
    }
  }

  /** The ids of a sequence of entries with one more at its end. */
  lemma {:induction false} IdsOfAppend(es: seq<WorkoutExercise>, e: WorkoutExercise)
    ensures IdsOf(es + [e]) == IdsOf(es) + multiset{e.id} + SetIds(e.sets)
  {
    var t := es + [e];
    if es == [] {
      assert t[1..] == [];
    } else {
      var h := multiset{es[0].id} + SetIds(es[0].sets);
      assert IdsOf(t) == h + IdsOf(es[1..] + [e]) by {
        assert t[0] == es[0] && t[1..] == es[1..] + [e];
      }
      IdsOfAppend(es[1..], e);
      UnionAssoc(h, IdsOf(es[1..]), multiset{e.id}, SetIds(e.sets));
    }
  }

  /** Union of multisets regrouped. */
  lemma UnionAssoc(a: multiset<Id>, b: multiset<Id>, c: multiset<Id>, d: multiset<Id>)
    ensures a + (b + c + d) == a + b + c + d
  {
  }

  /** Sets kept by a filter carry no id more often than the original sets. */
  lemma {:induction false} SetIdsSubsequence(r: seq<WorkoutSet>, sets: seq<WorkoutSet>)
    requires IsSubsequence(r, sets)
    ensures SetIds(r) <= SetIds(sets)
    decreases |sets|
  {
    if r != [] && sets != [] {
      if r[0] == sets[0] && IsSubsequence(r[1..], sets[1..]) {
        SetIdsSubsequence(r[1..], sets[1..]);
      } else {
        SetIdsSubsequence(r, sets[1..]);
      }
    }
  }

  /** Entries kept by a filter carry no id more often than the original entries. */
  lemma {:induction false} IdsOfSubsequence(r: seq<WorkoutExercise>, es: seq<WorkoutExercise>)
    requires IsSubsequence(r, es)
    ensures IdsOf(r) <= IdsOf(es)
    decreases |es|
  {
    if r != [] && es != [] {
      if r[0] == es[0] && IsSubsequence(r[1..], es[1..]) {
        IdsOfSubsequence(r[1..], es[1..]);
      } else {
        IdsOfSubsequence(r, es[1..]);
      }
    }
  }

  /** Fewer occurrences of every id keep a well-formed sequence well-formed. */
  lemma FewerIdsWellFormed(r: seq<WorkoutExercise>, es: seq<WorkoutExercise>, bound: nat)
    requires WellFormed(es, bound) && IdsOf(r) <= IdsOf(es)
    ensures WellFormed(r, bound)
  {
    forall x | x in IdsOf(r) ensures x <= bound {
      assert x in IdsOf(es);
    }
  }

  // ---------------------------------------------------------------------
  // addExerciseToWorkout / removeExerciseFromWorkout
  // ---------------------------------------------------------------------

  /** Appending an entry whose two ids are fresh adds exactly those ids and keeps the exercises well-formed. */
  lemma AppendExerciseWellFormed(es: seq<WorkoutExercise>, bound: nat, exercise: Exercise)
    requires WellFormed(es, bound)
    ensures IdsOf(es + [NewWorkoutExercise(bound + 1, exercise, bound + 2)]) == IdsOf(es) + Fresh(bound, bound + 2)
    ensures WellFormed(es + [NewWorkoutExercise(bound + 1, exercise, bound + 2)], bound + 2)
  {
    var e := NewWorkoutExercise(bound + 1, exercise, bound + 2);
    assert IdsOf(es + [e]) == IdsOf(es) + Fresh(bound, bound + 2) by {
      IdsOfAppend(es, e);
      assert SetIds(e.sets) == multiset{bound + 2} by {
        assert e.sets[1..] == [];
      }
      assert Fresh(bound, bound + 2) == multiset{bound + 1} + multiset{bound + 2} by {
        assert Fresh(bound + 2, bound + 2) == multiset{};
      }
    }
    FreshIdsDistinct(IdsOf(es), bound, bound + 2);
  }

  /** `exercises.filter(e => e.id !== id)` */
  function RemoveExercise(es: seq<WorkoutExercise>, id: Id): (r: seq<WorkoutExercise>)
    ensures IsSubsequence(r, es)
    ensures forall i :: 0 <= i < |r| ==> r[i].id != id && r[i] in es
    ensures forall i :: 0 <= i < |es| && es[i].id != id ==> es[i] in r
    ensures (forall i :: 0 <= i < |es| ==> es[i].id != id) ==> r == es
  {
    var keep := (e: WorkoutExercise) => e.id != id;
    FilterIsSubsequence(es, keep);
    if forall i :: 0 <= i < |es| ==> es[i].id != id then FilterKeepsAll(es, keep); Filter(es, keep)
    else Filter(es, keep)
  }

  /** Every element of a subsequence is an element of the sequence. */
  lemma {:induction false} SubsequenceMembers<T>(r: seq<T>, s: seq<T>)
    requires IsSubsequence(r, s)
    ensures forall x :: x in r ==> x in s
    decreases |s|
  {
    if r != [] && s != [] {
      if r[0] == s[0] && IsSubsequence(r[1..], s[1..]) {
        SubsequenceMembers(r[1..], s[1..]);
        assert forall x :: x in r ==> x == r[0] || x in r[1..];
      } else {
        SubsequenceMembers(r, s[1..]);
      }
    }
  }

  // ---------------------------------------------------------------------
  // addSet
  // ---------------------------------------------------------------------

  /**
   * `exercises.map(...)` in `addSet`: every entry with id `weId` gets one more
   * set, carried over from its last set, and the id generator, whose last id is
   * `next`, is called once per such entry, in order. Returns the new exercises
   * and the generator's new last id.
   */
  function AddSetTo(es: seq<WorkoutExercise>, weId: Id, next: nat): (r: (seq<WorkoutExercise>, nat))
    ensures |r.0| == |es|
    ensures r.1 == next + CountId(es, weId)
    ensures forall i :: 0 <= i < |es| && es[i].id != weId ==> r.0[i] == es[i]
  {
    if es == [] then ([], next)
    else if es[0].id == weId then
      var rest := AddSetTo(es[1..], weId, next + 1);
      ([es[0].(sets := es[0].sets + [CarriedSet(es[0].sets, next + 1)])] + rest.0, rest.1)
    else
      var rest := AddSetTo(es[1..], weId, next);
      ([es[0]] + rest.0, rest.1)
  }

  /** The `i`-th entry, when addressed, gains the set made with the id handed out for it. */
  lemma {:induction false} AddSetToAt(es: seq<WorkoutExercise>, weId: Id, next: nat, i: nat)
    requires i < |es| && es[i].id == weId
    ensures AddSetTo(es, weId, next).0[i] ==
      es[i].(sets := es[i].sets + [CarriedSet(es[i].sets, next + CountId(es[..i], weId) + 1)])
  {
    if i == 0 {
      assert es[..i] == [];
    } else {
      var next' := if es[0].id == weId then next + 1 else next;
      AddSetToAt(es[1..], weId, next', i - 1);
      var rest := AddSetTo(es[1..], weId, next');
      assert AddSetTo(es, weId, next).0[i] == rest.0[i - 1];
      assert es[..i][1..] == es[1..][..i - 1];
      assert CountId(es[..i], weId) == (if es[0].id == weId then 1 else 0) + CountId(es[1..][..i - 1], weId);
    }
  }

  /** An id that no entry carries occurs zero times; a unique one, once before and none after. */
  lemma {:induction false} CountIdDistinct(es: seq<WorkoutExercise>, weId: Id, k: int)
    requires ExerciseIdsDistinct(es)
    requires k == -1 ==> forall i :: 0 <= i < |es| ==> es[i].id != weId
    requires k != -1 ==> 0 <= k < |es| && es[k].id == weId
    ensures CountId(es, weId) == (if k == -1 then 0 else 1)
    ensures k != -1 ==> CountId(es[..k], weId) == 0
  {
    if es != [] {
      assert ExerciseIdsDistinct(es[1..]) by {
        assert forall i :: 0 <= i < |es| - 1 ==> es[1..][i] == es[i + 1];
      }
      if k == 0 {
        CountIdDistinct(es[1..], weId, -1);
      } else if k == -1 {
        CountIdDistinct(es[1..], weId, -1);
      } else {
        CountIdDistinct(es[1..], weId, k - 1);
        assert es[..k][1..] == es[1..][..k - 1];
        CountIdDistinct(es[1..][..k - 1], weId, -1);
      }
    }
  }

  /** `addSet` with an id no entry carries changes nothing and hands out no id. */
  lemma {:induction false} AddSetToAbsent(es: seq<WorkoutExercise>, weId: Id, next: nat)
    requires forall i :: 0 <= i < |es| ==> es[i].id != weId
    ensures AddSetTo(es, weId, next) == (es, next)
  {
    if es != [] {
      AddSetToAbsent(es[1..], weId, next);
      assert es == [es[0]] + es[1..];
    }
  }

  /**
   * `addSet` on an entry whose id is unique: the generator hands out exactly
   * one id, exactly that entry gains one set at its end, carried over from
   * its last set under the new id, and every other entry is unchanged.
   */
  lemma AddSetToUnique(es: seq<WorkoutExercise>, weId: Id, next: nat, k: int)
    requires ExerciseIdsDistinct(es)
    requires 0 <= k < |es| && es[k].id == weId
    ensures AddSetTo(es, weId, next).1 == next + 1
    ensures forall i :: 0 <= i < |es| && i != k ==> AddSetTo(es, weId, next).0[i] == es[i]
    ensures AddSetTo(es, weId, next).0[k] == es[k].(sets := es[k].sets + [CarriedSet(es[k].sets, next + 1)])
  {
    CountIdDistinct(es, weId, k);
    AddSetToAt(es, weId, next, k);
  }

  /** The ids the generator hands out while moving its last id from `a` to `b`. */
  function Fresh(a: nat, b: nat): multiset<Id>
    decreases b - a
  {
    if b <= a then multiset{} else multiset{a + 1} + Fresh(a + 1, b)
  }

  /** `Fresh(a, b)` holds `a + 1` to `b`, each once. */
  lemma {:induction false} FreshCount(a: nat, b: nat, x: Id)
    ensures Fresh(a, b)[x] == if a < x <= b then 1 else 0
    decreases b - a
  {
    if a < b {
      FreshCount(a + 1, b, x);
    }
  }

  /** Ids up to `bound` with no repeats, joined by the ids handed out after `bound`, still have no repeats. */
  lemma FreshIdsDistinct(ids: multiset<Id>, bound: nat, top: nat)
    requires NoRepeats(ids) && forall x :: x in ids ==> x <= bound
    requires bound <= top
    ensures NoRepeats(ids + Fresh(bound, top))
    ensures forall x :: x in ids + Fresh(bound, top) ==> x <= top
  {
    var m := ids + Fresh(bound, top);
    forall x | x in m ensures m[x] <= 1 && x <= top {
      FreshCount(bound, top, x);
      if x > bound {
        assert ids[x] == 0;
      }
    }
  }

  /** `addSet` adds to the exercises exactly the ids it hands out. */
  lemma {:induction false} AddSetToIds(es: seq<WorkoutExercise>, weId: Id, next: nat)
    ensures IdsOf(AddSetTo(es, weId, next).0) == IdsOf(es) + Fresh(next, AddSetTo(es, weId, next).1)
  {
    if es != [] {
      var r := AddSetTo(es, weId, next);
      var p, q, t := multiset{es[0].id}, SetIds(es[0].sets), IdsOf(es[1..]);
      assert IdsOf(es) == p + q + t;
      if es[0].id == weId {
        var s := CarriedSet(es[0].sets, next + 1);
        var rest := AddSetTo(es[1..], weId, next + 1);
        assert IdsOf(r.0) == p + (q + multiset{s.id}) + IdsOf(rest.0) by {
          var head := es[0].(sets := es[0].sets + [s]);
          assert r.0 == [head] + rest.0 && r.0[1..] == rest.0;
          SetIdsAppend(es[0].sets, s);
        }
        AddSetToIds(es[1..], weId, next + 1);
        assert Fresh(next, r.1) == multiset{next + 1} + Fresh(next + 1, rest.1) by {
          assert r.1 == rest.1 >= next + 1;
        }
        Rearrange(p, q, t, Fresh(next + 1, rest.1), next + 1);
      } else {
        var rest := AddSetTo(es[1..], weId, next);
        assert IdsOf(r.0) == p + q + IdsOf(rest.0) by {
          assert r.0 == [es[0]] + rest.0 && r.0[1..] == rest.0;
        }
        AddSetToIds(es[1..], weId, next);
        UnionAssoc3(p + q, t, Fresh(next, rest.1));
      }
    }
  }

  /** Union of multisets regrouped. */
  lemma UnionAssoc3(a: multiset<Id>, b: multiset<Id>, c: multiset<Id>)
    ensures a + (b + c) == a + b + c
  {
  }

  /** Union of multisets regrouped into the shape `AddSetToIds` needs. */
  lemma Rearrange(p: multiset<Id>, q: multiset<Id>, t: multiset<Id>, f: multiset<Id>, y: Id)
    ensures p + (q + multiset{y}) + (t + f) == (p + q + t) + (multiset{y} + f)
  {
  }

  /** `addSet` keeps the exercises well-formed under the generator's new last id. */
  lemma AddSetToWellFormed(es: seq<WorkoutExercise>, weId: Id, next: nat)
    requires WellFormed(es, next)
    ensures IdsOf(AddSetTo(es, weId, next).0) == IdsOf(es) + Fresh(next, AddSetTo(es, weId, next).1)
    ensures WellFormed(AddSetTo(es, weId, next).0, AddSetTo(es, weId, next).1)
  {
    AddSetToIds(es, weId, next);
    FreshIdsDistinct(IdsOf(es), next, AddSetTo(es, weId, next).1);
  }

  // ---------------------------------------------------------------------
  // updateSet / toggleSetComplete / removeSet
  // ---------------------------------------------------------------------

  /** `sets.map(s => s.id === setId ? f(s) : s)` */
  function MapSet(sets: seq<WorkoutSet>, setId: Id, f: WorkoutSet -> WorkoutSet): (r: seq<WorkoutSet>)
    ensures |r| == |sets|
    ensures forall j :: 0 <= j < |sets| ==> r[j] == if sets[j].id == setId then f(sets[j]) else sets[j]
  {
    if sets == [] then [] else [if sets[0].id == setId then f(sets[0]) else sets[0]] + MapSet(sets[1..], setId, f)
  }

  /** The exercises with `f` applied to set `setId` of entry `weId`; everything else kept. */
  function EditSet(es: seq<WorkoutExercise>, weId: Id, setId: Id, f: WorkoutSet -> WorkoutSet): (r: seq<WorkoutExercise>)
    ensures |r| == |es|
    ensures forall i :: 0 <= i < |es| ==>
      r[i].id == es[i].id && r[i].exercise == es[i].exercise && |r[i].sets| == |es[i].sets|
    ensures forall i :: 0 <= i < |es| && es[i].id != weId ==> r[i] == es[i]
    ensures forall i, j :: 0 <= i < |es| && es[i].id == weId && 0 <= j < |es[i].sets| ==>
      r[i].sets[j] == if es[i].sets[j].id == setId then f(es[i].sets[j]) else es[i].sets[j]
  {
    if es == [] then []
    else
      var head := if es[0].id == weId then es[0].(sets := MapSet(es[0].sets, setId, f)) else es[0];
      [head] + EditSet(es[1..], weId, setId, f)
  }

  /** Rewriting sets without changing their ids keeps the ids. */
  lemma {:induction false} MapSetIds(sets: seq<WorkoutSet>, setId: Id, f: WorkoutSet -> WorkoutSet)
    requires forall s :: f(s).id == s.id
    ensures SetIds(MapSet(sets, setId, f)) == SetIds(sets)
  {
    if sets != [] {
      MapSetIds(sets[1..], setId, f);
      assert MapSet(sets, setId, f)[1..] == MapSet(sets[1..], setId, f);
    }
  }

  /** Editing with a function that keeps ids keeps the ids, so the exercises stay well-formed. */
  lemma {:induction false} EditSetWellFormed(es: seq<WorkoutExercise>, weId: Id, setId: Id, f: WorkoutSet -> WorkoutSet, bound: nat)
    requires WellFormed(es, bound)
    requires forall s :: f(s).id == s.id
    ensures IdsOf(EditSet(es, weId, setId, f)) == IdsOf(es)
    ensures WellFormed(EditSet(es, weId, setId, f), bound)
  {
    EditSetIds(es, weId, setId, f);
  }

  lemma {:induction false} EditSetIds(es: seq<WorkoutExercise>, weId: Id, setId: Id, f: WorkoutSet -> WorkoutSet)
    requires forall s :: f(s).id == s.id
    ensures IdsOf(EditSet(es, weId, setId, f)) == IdsOf(es)
  {
    if es != [] {
      EditSetIds(es[1..], weId, setId, f);
      var r := EditSet(es, weId, setId, f);
      assert r[1..] == EditSet(es[1..], weId, setId, f);
      if es[0].id == weId {
        MapSetIds(es[0].sets, setId, f);
        assert r[0].sets == MapSet(es[0].sets, setId, f);
      }
    }
  }

  /** No entry `weId` holding a set `setId`: the edit changes nothing. */
  lemma {:induction false} EditSetAbsent(es: seq<WorkoutExercise>, weId: Id, setId: Id, f: WorkoutSet -> WorkoutSet)
    requires forall i, j :: 0 <= i < |es| && es[i].id == weId && 0 <= j < |es[i].sets| ==> es[i].sets[j].id != setId
    ensures EditSet(es, weId, setId, f) == es
  {
    var r := EditSet(es, weId, setId, f);
    forall i | 0 <= i < |es| ensures r[i] == es[i] {
      if es[i].id == weId {
        assert r[i].sets == es[i].sets;
      }
    }
  }

  /** `Partial<WorkoutSet>`: the fields `updateSet` may overwrite. */
  datatype SetPatch = SetPatch(
    id: Option<Id>,
    weight: Option<int>,
    reps: Option<int>,
    setType: Option<SetType>,
    completed: Option<bool>,
    restTime: Option<int>,
    notes: Option<string>)

  /** `{ ...s, ...updates }`: a field given in the patch wins, every other field is kept. */
  function ApplyPatch(s: WorkoutSet, p: SetPatch): WorkoutSet {
    WorkoutSet(
      p.id.GetOr(s.id),
      p.weight.GetOr(s.weight),
      p.reps.GetOr(s.reps),
      p.setType.GetOr(s.setType),
      p.completed.GetOr(s.completed),
      if p.restTime.Some? then p.restTime else s.restTime,
      if p.notes.Some? then p.notes else s.notes)
  }

  const EmptyPatch := SetPatch(None, None, None, None, None, None, None)

  /** Merging the empty patch changes nothing; merging a patch twice is merging it once. */
  lemma ApplyPatchLaws(s: WorkoutSet, p: SetPatch)
    ensures ApplyPatch(s, EmptyPatch) == s
    ensures ApplyPatch(ApplyPatch(s, p), p) == ApplyPatch(s, p)
    ensures p.id.None? ==> ApplyPatch(s, p).id == s.id
  {
  }

  /** `updateSet`'s rewrite of the exercises. */
  function PatchSet(es: seq<WorkoutExercise>, weId: Id, setId: Id, p: SetPatch): seq<WorkoutExercise> {
    EditSet(es, weId, setId, s => ApplyPatch(s, p))
  }

  /** The empty patch leaves the exercises as they were. */
  lemma PatchSetEmpty(es: seq<WorkoutExercise>, weId: Id, setId: Id)
    ensures PatchSet(es, weId, setId, EmptyPatch) == es
  {
    var r := PatchSet(es, weId, setId, EmptyPatch);
    forall i | 0 <= i < |es| ensures r[i] == es[i] {
      if es[i].id == weId {
        assert r[i].sets == es[i].sets;
      }
    }
  }

  /** Applying the same patch twice is applying it once. */
  lemma PatchSetIdempotent(es: seq<WorkoutExercise>, weId: Id, setId: Id, p: SetPatch)
    ensures PatchSet(PatchSet(es, weId, setId, p), weId, setId, p) == PatchSet(es, weId, setId, p)
  {
    var r1 := PatchSet(es, weId, setId, p);
    var r2 := PatchSet(r1, weId, setId, p);
    forall i | 0 <= i < |es| ensures r2[i] == r1[i] {
      if es[i].id == weId {
        assert r2[i].sets == r1[i].sets;
      }
    }
  }

  /** `{ ...s, completed: !s.completed }` */
  function Flip(s: WorkoutSet): WorkoutSet {
    s.(completed := !s.completed)
  }

  /** `toggleSetComplete`'s rewrite of the exercises. */
  function ToggleSet(es: seq<WorkoutExercise>, weId: Id, setId: Id): seq<WorkoutExercise> {
    EditSet(es, weId, setId, Flip)
  }

  /** Toggling the same set twice restores the exercises. */
  lemma ToggleSetTwice(es: seq<WorkoutExercise>, weId: Id, setId: Id)
    ensures ToggleSet(ToggleSet(es, weId, setId), weId, setId) == es
  {
    var r1 := ToggleSet(es, weId, setId);
    var r2 := ToggleSet(r1, weId, setId);
    forall i | 0 <= i < |es| ensures r2[i] == es[i] {
      if es[i].id == weId {
        assert r2[i].sets == es[i].sets;
      }
    }
  }

  /** `sets.filter(s => s.id !== setId)` */
  function RemoveSetIn(sets: seq<WorkoutSet>, setId: Id): (r: seq<WorkoutSet>)
    ensures IsSubsequence(r, sets)
    ensures forall j :: 0 <= j < |r| ==> r[j].id != setId && r[j] in sets
    ensures forall j :: 0 <= j < |sets| && sets[j].id != setId ==> sets[j] in r
    ensures (forall j :: 0 <= j < |sets| ==> sets[j].id != setId) ==> r == sets
  {
    var keep := (s: WorkoutSet) => s.id != setId;
    FilterIsSubsequence(sets, keep);
    if forall j :: 0 <= j < |sets| ==> sets[j].id != setId then FilterKeepsAll(sets, keep); Filter(sets, keep)
    else Filter(sets, keep)
  }

  /** `removeSet`'s rewrite: the sets with id `setId` leave entry `weId`; everything else is kept. */
  function RemoveSet(es: seq<WorkoutExercise>, weId: Id, setId: Id): (r: seq<WorkoutExercise>)
    ensures |r| == |es|
    ensures forall i :: 0 <= i < |es| ==> r[i].id == es[i].id && r[i].exercise == es[i].exercise
    ensures forall i :: 0 <= i < |es| && es[i].id != weId ==> r[i] == es[i]
    ensures forall i :: 0 <= i < |es| && es[i].id == weId ==> r[i].sets == RemoveSetIn(es[i].sets, setId)
  {
    if es == [] then []
    else
      var head := if es[0].id == weId then es[0].(sets := RemoveSetIn(es[0].sets, setId)) else es[0];
      [head] + RemoveSet(es[1..], weId, setId)
  }

  /** Removing sets never adds an id. */
  lemma {:induction false} RemoveSetIds(es: seq<WorkoutExercise>, weId: Id, setId: Id)
    ensures IdsOf(RemoveSet(es, weId, setId)) <= IdsOf(es)
  {
    if es != [] {
      RemoveSetIds(es[1..], weId, setId);
      var r := RemoveSet(es, weId, setId);
      assert r[1..] == RemoveSet(es[1..], weId, setId);
      if es[0].id == weId {
        SetIdsSubsequence(RemoveSetIn(es[0].sets, setId), es[0].sets);
      }
    }
  }

  /** Removing a set keeps the exercises well-formed. */
  lemma RemoveSetWellFormed(es: seq<WorkoutExercise>, weId: Id, setId: Id, bound: nat)
    requires WellFormed(es, bound)
    ensures IdsOf(RemoveSet(es, weId, setId)) <= IdsOf(es)
    ensures WellFormed(RemoveSet(es, weId, setId), bound)
  {
    RemoveSetIds(es, weId, setId);
    FewerIdsWellFormed(RemoveSet(es, weId, setId), es, bound);
  }

  /** Removing an exercise entry keeps the exercises well-formed. */
  lemma RemoveExerciseWellFormed(es: seq<WorkoutExercise>, id: Id, bound: nat)
    requires WellFormed(es, bound)
    ensures IdsOf(RemoveExercise(es, id)) <= IdsOf(es)
    ensures WellFormed(RemoveExercise(es, id), bound)
  {
    IdsOfSubsequence(RemoveExercise(es, id), es);
    FewerIdsWellFormed(RemoveExercise(es, id), es, bound);
  }

  // ---------------------------------------------------------------------
  // startWorkout / finishWorkout / deleteWorkout
  // ---------------------------------------------------------------------

  /** The workout `startWorkout` creates: no exercises, not completed, no duration or notes. */
  function NewWorkout(id: Id, name: string, now: Timestamp): Workout {
    Workout(id, name, now, None, [], None, false)
  }

  const MillisPerMinute := 60000

  /**
   * `{ ...activeWorkout, completed: true, duration: Math.floor((now - start) / 60000) }`:
   * the duration is the whole number of minutes elapsed, rounded down, and is
   * not clamped at zero.
   */
  function Finished(w: Workout, now: Timestamp): (f: Workout)
    ensures f.completed && f.duration.Some?
    ensures MillisPerMinute * f.duration.value <= now - w.date < MillisPerMinute * (f.duration.value + 1)
    ensures f == w.(completed := true, duration := f.duration)
  {
    w.(completed := true, duration := Some((now - w.date) / MillisPerMinute))
  }

  /** A clock that reads earlier than the start gives a negative duration. */
  lemma FinishedBeforeStartIsNegative(w: Workout, now: Timestamp)
    requires now < w.date
    ensures Finished(w, now).duration.value < 0
  {
  }

  /** `workouts.filter(w => w.id !== workoutId)` */
  function RemoveWorkout(ws: seq<Workout>, id: Id): (r: seq<Workout>)
    ensures IsSubsequence(r, ws)
    ensures forall i :: 0 <= i < |r| ==> r[i].id != id && r[i] in ws
    ensures forall i :: 0 <= i < |ws| && ws[i].id != id ==> ws[i] in r
    ensures (forall i :: 0 <= i < |ws| ==> ws[i].id != id) ==> r == ws
  {
    var keep := (w: Workout) => w.id != id;
    FilterIsSubsequence(ws, keep);
    if forall i :: 0 <= i < |ws| ==> ws[i].id != id then FilterKeepsAll(ws, keep); Filter(ws, keep)
    else Filter(ws, keep)
  }

  /** Distinct workout ids stay distinct after a removal. */
  lemma {:induction false} RemoveWorkoutDistinct(ws: seq<Workout>, id: Id)
    requires forall i, j :: 0 <= i < j < |ws| ==> ws[i].id != ws[j].id
    ensures var r := RemoveWorkout(ws, id); forall i, j :: 0 <= i < j < |r| ==> r[i].id != r[j].id
  {
    WorkoutSubsequenceDistinct(RemoveWorkout(ws, id), ws);
  }

  /** A subsequence of workouts with distinct ids has distinct ids. */
  lemma {:induction false} WorkoutSubsequenceDistinct(r: seq<Workout>, ws: seq<Workout>)
    requires IsSubsequence(r, ws)
    requires forall i, j :: 0 <= i < j < |ws| ==> ws[i].id != ws[j].id
    ensures forall i, j :: 0 <= i < j < |r| ==> r[i].id != r[j].id
    decreases |ws|
  {
    if r != [] && ws != [] {
      assert forall i, j :: 0 <= i < j < |ws| - 1 ==> ws[1..][i].id != ws[1..][j].id by {
        assert forall i :: 0 <= i < |ws| - 1 ==> ws[1..][i] == ws[i + 1];
      }
      if r[0] == ws[0] && IsSubsequence(r[1..], ws[1..]) {
        WorkoutSubsequenceDistinct(r[1..], ws[1..]);
        SubsequenceMembers(r[1..], ws[1..]);
        assert forall i :: 0 < i < |r| ==> r[i] == r[1..][i - 1] && r[i] in ws[1..];
      } else {
        WorkoutSubsequenceDistinct(r, ws[1..]);
      }
    }
  }
}
