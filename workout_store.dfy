/**
 * The workout store: the history of workouts (newest first), the one
 * in-progress workout if any, and the counter behind the id generator. Each
 * action replaces `activeWorkout` or `workouts` with a rewritten copy
 * (SessionEdits); every exercise/set action does nothing when no workout is
 * active.
 */
module Store {
  import opened Wrappers
  import opened WorkoutTypes
  import opened SessionEdits

  class WorkoutStore {
    /** The history, newest first. */
    var workouts: seq<Workout>
    /** The workout in progress, if any. */
    var activeWorkout: Option<Workout>
    /** The last value handed out by `GenId`. */
    var idCounter: nat

    /**
     * The discipline every action keeps: every id was handed out already; the
     * history holds only completed workouts, under distinct ids; the active
     * workout is not completed, its id is not in the history, and no id occurs
     * twice among its own id, its entry ids and its set ids.
     */
    ghost predicate Valid()
      reads this
    {
      && (forall i :: 0 <= i < |workouts| ==> workouts[i].id <= idCounter && workouts[i].completed)
      && (forall i, j :: 0 <= i < j < |workouts| ==> workouts[i].id != workouts[j].id)
      && (activeWorkout.Some? ==>
            && activeWorkout.value.id <= idCounter
            && !activeWorkout.value.completed
            && WellFormed(activeWorkout.value.exercises, idCounter)
            && activeWorkout.value.id !in IdsOf(activeWorkout.value.exercises)
            && forall i :: 0 <= i < |workouts| ==> workouts[i].id != activeWorkout.value.id)
    }

    /** The initial state: no history and no active workout. */
    constructor ()
      ensures workouts == [] && activeWorkout == None && idCounter == 0
      ensures Valid()
    {
      workouts := [];
      activeWorkout := None;
      idCounter := 0;
    }

    /** `genId`: a strictly larger id on every call. */
    method GenId() returns (id: Id)
      modifies this
      ensures id == old(idCounter) + 1 && idCounter == id
      ensures workouts == old(workouts) && activeWorkout == old(activeWorkout)
    {
      idCounter := idCounter + 1;
      id := idCounter;
    }

    /** `startWorkout`: a fresh empty workout becomes active, replacing any active one. */
    method StartWorkout(name: string, now: Timestamp)
      modifies this
      ensures idCounter == old(idCounter) + 1
      ensures activeWorkout == Some(NewWorkout(idCounter, name, now))
      ensures workouts == old(workouts)
      ensures old(Valid()) ==> Valid()
    {
      var id := GenId();
      activeWorkout := Some(NewWorkout(id, name, now));
    }

    /** `cancelWorkout`: the active workout is dropped; the history is untouched. */
    method CancelWorkout()
      modifies this
      ensures activeWorkout == None
      ensures workouts == old(workouts) && idCounter == old(idCounter)
      ensures old(Valid()) ==> Valid()
    {
      activeWorkout := None;
    }

    /**
     * `finishWorkout`: with no active workout nothing changes; otherwise the
     * finished copy is put at the front of the history and nothing is active.
     */
    method FinishWorkout(now: Timestamp)
      modifies this
      ensures old(activeWorkout).None? ==> workouts == old(workouts) && activeWorkout == None
      ensures old(activeWorkout).Some? ==>
        && workouts == [Finished(old(activeWorkout).value, now)] + old(workouts)
        && activeWorkout == None
      ensures idCounter == old(idCounter)
      ensures old(Valid()) ==> Valid()
    {
      if activeWorkout.None? {
        return;
      }
      var finished := Finished(activeWorkout.value, now);
      workouts := [finished] + workouts;
      activeWorkout := None;
    }

    /** `addExerciseToWorkout`: one new entry, holding one blank set, at the end. */
    method AddExerciseToWorkout(exercise: Exercise)
      modifies this
      ensures old(activeWorkout).None? ==> unchanged(this)
      ensures old(activeWorkout).Some? ==>
        && idCounter == old(idCounter) + 2
        && activeWorkout == Some(old(activeWorkout).value.(exercises :=
             old(activeWorkout).value.exercises
             + [NewWorkoutExercise(old(idCounter) + 1, exercise, old(idCounter) + 2)]))
      ensures workouts == old(workouts)
      ensures old(Valid()) ==> Valid()
    {
      if activeWorkout.None? {
        return;
      }
      var active := activeWorkout.value;
      ghost var valid := Valid();
      var weId := GenId();
      var setId := GenId();
      activeWorkout := Some(active.(exercises := active.exercises + [NewWorkoutExercise(weId, exercise, setId)]));
      if valid {
        AppendExerciseWellFormed(active.exercises, weId - 1, exercise);
        FreshCount(weId - 1, setId, active.id);
      }
    }

    /** `removeExerciseFromWorkout`: the entries with that id leave the active workout. */
    method RemoveExerciseFromWorkout(exerciseId: Id)
      modifies this
      ensures old(activeWorkout).None? ==> unchanged(this)
      ensures old(activeWorkout).Some? ==>
        activeWorkout == Some(old(activeWorkout).value.(exercises :=
          RemoveExercise(old(activeWorkout).value.exercises, exerciseId)))
      ensures workouts == old(workouts) && idCounter == old(idCounter)
      ensures old(Valid()) ==> Valid()
    {
      if activeWorkout.None? {
        return;
      }
      var active := activeWorkout.value;
      if Valid() {
        RemoveExerciseWellFormed(active.exercises, exerciseId, idCounter);
      }
      activeWorkout := Some(active.(exercises := RemoveExercise(active.exercises, exerciseId)));
    }

    /** `addSet`: the addressed entry gains a set carried over from its last one. */
    method AddSet(workoutExerciseId: Id)
      modifies this
      ensures old(activeWorkout).None? ==> unchanged(this)
      ensures old(activeWorkout).Some? ==>
        var (es, next) := AddSetTo(old(activeWorkout).value.exercises, workoutExerciseId, old(idCounter));
        activeWorkout == Some(old(activeWorkout).value.(exercises := es)) && idCounter == next
      ensures workouts == old(workouts)
      ensures old(Valid()) ==> Valid()
    {
      if activeWorkout.None? {
        return;
      }
      var active := activeWorkout.value;
      if Valid() {
        AddSetToWellFormed(active.exercises, workoutExerciseId, idCounter);
        FreshCount(idCounter, AddSetTo(active.exercises, workoutExerciseId, idCounter).1, active.id);
      }
      var (es, next) := AddSetTo(active.exercises, workoutExerciseId, idCounter);
      activeWorkout := Some(active.(exercises := es));
      idCounter := next;
    }

    /** `updateSet`: the patch is merged into the addressed set, without validation. */
    method UpdateSet(workoutExerciseId: Id, setId: Id, updates: SetPatch)
      modifies this
      ensures old(activeWorkout).None? ==> unchanged(this)
      ensures old(activeWorkout).Some? ==>
        activeWorkout == Some(old(activeWorkout).value.(exercises :=
          PatchSet(old(activeWorkout).value.exercises, workoutExerciseId, setId, updates)))
      ensures workouts == old(workouts) && idCounter == old(idCounter)
      ensures old(Valid()) && updates.id.None? ==> Valid()
    {
      if activeWorkout.None? {
        return;
      }
      var active := activeWorkout.value;
      if Valid() && updates.id.None? {
        EditSetWellFormed(active.exercises, workoutExerciseId, setId, s => ApplyPatch(s, updates), idCounter);
      }
      activeWorkout := Some(active.(exercises := PatchSet(active.exercises, workoutExerciseId, setId, updates)));
    }

    /** `removeSet`: the addressed set leaves its entry. */
    method RemoveSet(workoutExerciseId: Id, setId: Id)
      modifies this
      ensures old(activeWorkout).None? ==> unchanged(this)
      ensures old(activeWorkout).Some? ==>
        activeWorkout == Some(old(activeWorkout).value.(exercises :=
          SessionEdits.RemoveSet(old(activeWorkout).value.exercises, workoutExerciseId, setId)))
      ensures workouts == old(workouts) && idCounter == old(idCounter)
      ensures old(Valid()) ==> Valid()
    {
      if activeWorkout.None? {
        return;
      }
      var active := activeWorkout.value;
      if Valid() {
        RemoveSetWellFormed(active.exercises, workoutExerciseId, setId, idCounter);
      }
      activeWorkout := Some(active.(exercises := SessionEdits.RemoveSet(active.exercises, workoutExerciseId, setId)));
    }

    /** `toggleSetComplete`: the addressed set's completion flag is flipped. */
    method ToggleSetComplete(workoutExerciseId: Id, setId: Id)
      modifies this
      ensures old(activeWorkout).None? ==> unchanged(this)
      ensures old(activeWorkout).Some? ==>
        activeWorkout == Some(old(activeWorkout).value.(exercises :=
          ToggleSet(old(activeWorkout).value.exercises, workoutExerciseId, setId)))
      ensures workouts == old(workouts) && idCounter == old(idCounter)
      ensures old(Valid()) ==> Valid()
    {
      if activeWorkout.None? {
        return;
      }
      var active := activeWorkout.value;
      if Valid() {
        EditSetWellFormed(active.exercises, workoutExerciseId, setId, Flip, idCounter);
      }
      activeWorkout := Some(active.(exercises := ToggleSet(active.exercises, workoutExerciseId, setId)));
    }

    /** `deleteWorkout`: the workouts with that id leave the history, active or not. */
    method DeleteWorkout(workoutId: Id)
      modifies this
      ensures workouts == RemoveWorkout(old(workouts), workoutId)
      ensures activeWorkout == old(activeWorkout) && idCounter == old(idCounter)
      ensures old(Valid()) ==> Valid()
    {
      if Valid() {
        RemoveWorkoutDistinct(workouts, workoutId);
      }
      var remaining := RemoveWorkout(workouts, workoutId);
      workouts := remaining;
    }
  }

  /**
   * Start, add one exercise, finish after 45 minutes, finish again: the
   * history holds the one completed workout with its entry and a 45-minute
   * duration, and the second finish changes nothing.
   */
  method FinishScenario(bench: Exercise) returns (history: seq<Workout>, active: Option<Workout>)
    ensures |history| == 1 && active == None
    ensures history[0].completed && history[0].duration == Some(45)
    ensures history[0].exercises == [NewWorkoutExercise(2, bench, 3)]
  {
    var store := new WorkoutStore();
    store.StartWorkout("Push day", 0);
    store.AddExerciseToWorkout(bench);
    store.FinishWorkout(45 * MillisPerMinute);
    store.FinishWorkout(50 * MillisPerMinute);
    history, active := store.workouts, store.activeWorkout;
  }

  /** Start, cancel, then finish: the history stays empty and nothing is active. */
  method CancelScenario() returns (history: seq<Workout>, active: Option<Workout>)
    ensures history == [] && active == None
  {
    var store := new WorkoutStore();
    store.StartWorkout("Leg day", 0);
    store.CancelWorkout();
    store.FinishWorkout(10 * MillisPerMinute);
    history, active := store.workouts, store.activeWorkout;
  }
}
