/**
 * Personal records: the Epley estimate of a one-repetition maximum, and the
 * table of each exercise's best completed set, listed by decreasing estimate.
 */
module PersonalRecords {
  import opened Wrappers
  import opened WorkoutTypes

  datatype PersonalRecord = PersonalRecord(
    exerciseName: string,
    weight: int,
    reps: int,
    date: Timestamp,
    estimated1RM: int)

  /**
   * `calc1RM`: 0 for a non-positive weight or repetition count, the weight
   * itself for a single repetition, and otherwise `weight * (1 + reps / 30)`
   * rounded to the nearest integer, halves rounding up (`Math.round`).
   */
  function Calc1RM(weight: int, reps: int): (e: int)
    ensures reps <= 0 || weight <= 0 ==> e == 0
    ensures reps == 1 && weight > 0 ==> e == weight
    ensures reps >= 2 && weight > 0 ==> 30 * e - 15 <= weight * (30 + reps) < 30 * e + 15
    ensures reps >= 1 && weight > 0 ==> e >= weight
  {
    if reps <= 0 || weight <= 0 then 0
    else if reps == 1 then weight
    else
      var scaled := weight * (30 + reps);
      assert scaled == 30 * weight + weight * reps;
      assert weight * reps >= 2 * weight;
      (2 * scaled + 30) / 60
  }

  /** A heavier set with the same repetitions never has a smaller estimate. */
  lemma Calc1RMMonotoneInWeight(w1: int, w2: int, reps: int)
    requires w1 <= w2
    ensures Calc1RM(w1, reps) <= Calc1RM(w2, reps)
  {
    if reps >= 2 && w1 > 0 {
      assert w1 * (30 + reps) <= w2 * (30 + reps);
    }
  }

  /** More repetitions with the same weight never give a smaller estimate. */
  lemma Calc1RMMonotoneInReps(weight: int, r1: int, r2: int)
    requires 1 <= r1 <= r2
    ensures Calc1RM(weight, r1) <= Calc1RM(weight, r2)
  {
    if r1 >= 2 && weight > 0 {
      assert weight * (30 + r1) <= weight * (30 + r2);
    }
  }

  // ---------------------------------------------------------------------
  // The sets that compete, in the order the loops visit them.
  // ---------------------------------------------------------------------

  /** A set competes for a record only when it is completed and has a positive weight. */
  predicate Qualifies(s: WorkoutSet) {
    s.completed && s.weight > 0
  }

  /** The record a set would make. */
  function CandidateOf(name: string, date: Timestamp, s: WorkoutSet): PersonalRecord {
    PersonalRecord(name, s.weight, s.reps, date, Calc1RM(s.weight, s.reps))
  }

  /** The candidates of one entry's sets, in set order. */
  function SetCandidates(name: string, date: Timestamp, sets: seq<WorkoutSet>): seq<PersonalRecord> {
    if sets == [] then []
    else
      var last := sets[|sets| - 1];
      SetCandidates(name, date, sets[..|sets| - 1]) + (if Qualifies(last) then [CandidateOf(name, date, last)] else [])
  }

  /** The candidates of one workout's entries, in entry order. */
  function ExerciseCandidates(date: Timestamp, es: seq<WorkoutExercise>): seq<PersonalRecord> {
    if es == [] then []
    else
      var last := es[|es| - 1];
      ExerciseCandidates(date, es[..|es| - 1]) + SetCandidates(last.exercise.name, date, last.sets)
  }

  /** The candidates of the whole history, in history order. */
  function HistoryCandidates(ws: seq<Workout>): seq<PersonalRecord> {
    if ws == [] then []
    else
      var last := ws[|ws| - 1];
      HistoryCandidates(ws[..|ws| - 1]) + ExerciseCandidates(last.date, last.exercises)
  }

  /** `c` is the record made by a qualifying set of some entry of some workout in `ws`. */
  ghost predicate FromQualifyingSet(ws: seq<Workout>, c: PersonalRecord) {
    exists w, we, s :: w in ws && we in w.exercises && s in we.sets &&
      Qualifies(s) && c == CandidateOf(we.exercise.name, w.date, s)
  }

  lemma {:induction false} SetCandidatesMembers(name: string, date: Timestamp, sets: seq<WorkoutSet>)
    ensures forall c :: c in SetCandidates(name, date, sets) <==>
      exists s :: s in sets && Qualifies(s) && c == CandidateOf(name, date, s)
  {
    if sets != [] {
      var init := sets[..|sets| - 1];
      SetCandidatesMembers(name, date, init);
      assert sets == init + [sets[|sets| - 1]];
    }
  }

  lemma {:induction false} ExerciseCandidatesMembers(date: Timestamp, es: seq<WorkoutExercise>)
    ensures forall c :: c in ExerciseCandidates(date, es) <==>
      exists we :: we in es && c in SetCandidates(we.exercise.name, date, we.sets)
  {
    if es != [] {
      var init := es[..|es| - 1];
      ExerciseCandidatesMembers(date, init);
      assert es == init + [es[|es| - 1]];
    }
  }

  lemma {:induction false} HistoryCandidatesMembers(ws: seq<Workout>)
    ensures forall c :: c in HistoryCandidates(ws) <==>
      exists w :: w in ws && c in ExerciseCandidates(w.date, w.exercises)
  {
    if ws != [] {
      var init := ws[..|ws| - 1];
      HistoryCandidatesMembers(init);
      assert ws == init + [ws[|ws| - 1]];
    }
  }

  /** The candidates of one workout are the records of its qualifying sets. */
  lemma WorkoutCandidatesMembers(date: Timestamp, es: seq<WorkoutExercise>)
    ensures forall c :: c in ExerciseCandidates(date, es) <==>
      exists we, s :: we in es && s in we.sets && Qualifies(s) && c == CandidateOf(we.exercise.name, date, s)
  {
    ExerciseCandidatesMembers(date, es);
    forall we | we in es
      ensures forall c :: c in SetCandidates(we.exercise.name, date, we.sets) <==>
        exists s :: s in we.sets && Qualifies(s) && c == CandidateOf(we.exercise.name, date, s)
    {
      SetCandidatesMembers(we.exercise.name, date, we.sets);
    }
  }

  /** The candidates are exactly the records of the history's qualifying sets. */
  lemma HistoryCandidatesAreQualifyingSets(ws: seq<Workout>)
    ensures forall c :: c in HistoryCandidates(ws) <==> FromQualifyingSet(ws, c)
  {
    HistoryCandidatesMembers(ws);
    forall w | w in ws
      ensures forall c :: c in ExerciseCandidates(w.date, w.exercises) <==>
        exists we, s :: we in w.exercises && s in we.sets && Qualifies(s) && c == CandidateOf(we.exercise.name, w.date, s)
    {
      WorkoutCandidatesMembers(w.date, w.exercises);
    }
  }

  // ---------------------------------------------------------------------
  // The table the loops fill: a map kept in key-insertion order.
  // ---------------------------------------------------------------------

  /** `prMap`: the best record per name, and the names in the order they were first set. */
  datatype RecordTable = RecordTable(best: map<string, PersonalRecord>, order: seq<string>)

  /** Each key is listed once in `order`, and each record is filed under its own name. */
  ghost predicate Consistent(t: RecordTable) {
    && (forall i, j :: 0 <= i < j < |t.order| ==> t.order[i] != t.order[j])
    && (forall k :: k in t.best <==> k in t.order)
    && (forall k :: k in t.best ==> t.best[k].exerciseName == k)
  }

  /** The loop body: a new name is inserted; a known one is replaced only by a strictly larger estimate. */
  function Offer(t: RecordTable, c: PersonalRecord): RecordTable {
    var name := c.exerciseName;
    if name !in t.best then RecordTable(t.best[name := c], t.order + [name])
    else if c.estimated1RM > t.best[name].estimated1RM then RecordTable(t.best[name := c], t.order)
    else t
  }

  /** The table after offering every candidate, in order, to the empty table. */
  function Scan(cs: seq<PersonalRecord>): (t: RecordTable)
    ensures Consistent(t)
  {
    if cs == [] then RecordTable(map[], [])
    else
      var t0 := Scan(cs[..|cs| - 1]);
      var c := cs[|cs| - 1];
      assert c.exerciseName !in t0.best ==> forall i :: 0 <= i < |t0.order| ==> t0.order[i] != c.exerciseName;
      Offer(t0, c)
  }

  /** A name has a record exactly when some candidate carries it. */
  lemma {:induction false} ScanKeys(cs: seq<PersonalRecord>)
    ensures forall k :: k in Scan(cs).best <==> exists i :: 0 <= i < |cs| && cs[i].exerciseName == k
  {
    if cs != [] {
      var init := cs[..|cs| - 1];
      ScanKeys(init);
      assert forall i :: 0 <= i < |init| ==> init[i] == cs[i];
    }
  }

  /** Offering keeps every name and never lowers a record; the offered name ends up at least as high. */
  lemma OfferGrows(t: RecordTable, c: PersonalRecord)
    ensures forall k :: k in t.best ==> k in Offer(t, c).best && t.best[k].estimated1RM <= Offer(t, c).best[k].estimated1RM
    ensures c.exerciseName in Offer(t, c).best && c.estimated1RM <= Offer(t, c).best[c.exerciseName].estimated1RM
  {
  }

  /** Every candidate's estimate is at most the estimate of its name's record. */
  lemma {:induction false} ScanMaximal(cs: seq<PersonalRecord>)
    ensures forall i :: 0 <= i < |cs| ==>
      cs[i].exerciseName in Scan(cs).best &&
      cs[i].estimated1RM <= Scan(cs).best[cs[i].exerciseName].estimated1RM
  {
    if cs != [] {
      var init := cs[..|cs| - 1];
      var c := cs[|cs| - 1];
      var t0 := Scan(init);
      ScanMaximal(init);
      OfferGrows(t0, c);
      var t := Offer(t0, c);
      assert Scan(cs) == t;
      forall i | 0 <= i < |cs|
        ensures cs[i].exerciseName in t.best && cs[i].estimated1RM <= t.best[cs[i].exerciseName].estimated1RM
      {
        if i < |init| {
          assert cs[i] == init[i];
        }
      }
    }
  }

  /** Every candidate before position `j` with the same name has a strictly smaller estimate. */
  predicate FirstMaximumAt(cs: seq<PersonalRecord>, j: int)
    requires 0 <= j < |cs|
  {
    forall i :: 0 <= i < j && cs[i].exerciseName == cs[j].exerciseName ==> cs[i].estimated1RM < cs[j].estimated1RM
  }

  /**
   * Each record is a candidate, and every earlier candidate of the same name
   * has a strictly smaller estimate: among equal estimates the first is kept.
   */
  lemma {:induction false} ScanKeepsFirstMaximum(cs: seq<PersonalRecord>, k: string)
    requires k in Scan(cs).best
    ensures exists j :: 0 <= j < |cs| && cs[j] == Scan(cs).best[k] && FirstMaximumAt(cs, j)
  {
    var init := cs[..|cs| - 1];
    var c := cs[|cs| - 1];
    var t0 := Scan(init);
    assert forall i :: 0 <= i < |init| ==> init[i] == cs[i];
    var n := |cs| - 1;
    if c.exerciseName == k && (k !in t0.best || c.estimated1RM > t0.best[k].estimated1RM) {
      if k in t0.best {
        ScanMaximal(init);
      } else {
        ScanKeys(init);
      }
      assert cs[n] == Scan(cs).best[k];
      assert FirstMaximumAt(cs, n);
    } else {
      ScanKeepsFirstMaximum(init, k);
      var j :| 0 <= j < |init| && init[j] == t0.best[k] && FirstMaximumAt(init, j);
      assert cs[j] == Scan(cs).best[k];
      assert FirstMaximumAt(cs, j);
    }
  }

  /** `Array.from(prMap.values())`: the records in key-insertion order. */
  function Values(t: RecordTable): seq<PersonalRecord>
    requires Consistent(t)
  {
    seq(|t.order|, i requires 0 <= i < |t.order| => t.best[t.order[i]])
  }

  // ---------------------------------------------------------------------
  // `.sort((a, b) => b.estimated1RM - a.estimated1RM)`, a stable sort.
  // ---------------------------------------------------------------------

  /** Estimates never increase along `rs`. */
  predicate SortedByEstimate(rs: seq<PersonalRecord>) {
    forall i, j :: 0 <= i < j < |rs| ==> rs[i].estimated1RM >= rs[j].estimated1RM
  }

  /** Where `r` is inserted: after every record with a strictly larger estimate. */
  function InsertPosition(r: PersonalRecord, rs: seq<PersonalRecord>): (m: nat)
    ensures m <= |rs|
    ensures forall i :: 0 <= i < m ==> rs[i].estimated1RM > r.estimated1RM
    ensures m < |rs| ==> r.estimated1RM >= rs[m].estimated1RM
  {
    if rs == [] || r.estimated1RM >= rs[0].estimated1RM then 0
    else 1 + InsertPosition(r, rs[1..])
  }

  /** `rs` with `r` inserted at position `m`. */
  function Splice(rs: seq<PersonalRecord>, m: nat, r: PersonalRecord): (out: seq<PersonalRecord>)
    requires m <= |rs|
    ensures |out| == |rs| + 1
    ensures forall k :: 0 <= k < |out| ==> out[k] == if k < m then rs[k] else if k == m then r else rs[k - 1]
    ensures multiset(out) == multiset(rs) + multiset{r}
  {
    assert rs == rs[..m] + rs[m..];
    rs[..m] + [r] + rs[m..]
  }

  /** Inserting at `InsertPosition` keeps the estimates non-increasing. */
  lemma InsertSorted(r: PersonalRecord, rs: seq<PersonalRecord>)
    requires SortedByEstimate(rs)
    ensures SortedByEstimate(Splice(rs, InsertPosition(r, rs), r))
  {
    var m := InsertPosition(r, rs);
    var out := Splice(rs, m, r);
    forall i, j | 0 <= i < j < |out|
      ensures out[i].estimated1RM >= out[j].estimated1RM
    {
      if j > m && i <= m {
        assert rs[m].estimated1RM >= rs[j - 1].estimated1RM;
      }
    }
  }

  /** Puts `r` before the first record whose estimate it reaches. */
  function InsertByEstimate(r: PersonalRecord, rs: seq<PersonalRecord>): (out: seq<PersonalRecord>)
    requires SortedByEstimate(rs)
    ensures SortedByEstimate(out)
    ensures multiset(out) == multiset(rs) + multiset{r}
  {
    InsertSorted(r, rs);
    Splice(rs, InsertPosition(r, rs), r)
  }

  /** Insertion sort by decreasing estimate; records of equal estimate keep their order. */
  function SortByEstimate(rs: seq<PersonalRecord>): (out: seq<PersonalRecord>)
    ensures SortedByEstimate(out)
    ensures multiset(out) == multiset(rs)
  {
    if rs == [] then []
    else
      assert rs == [rs[0]] + rs[1..];
      InsertByEstimate(rs[0], SortByEstimate(rs[1..]))
  }

  /** Records of equal estimate in `out` appear in the order they have in `rs`. */
  ghost predicate StableFrom(rs: seq<PersonalRecord>, out: seq<PersonalRecord>) {
    forall i, j :: 0 <= i < j < |out| && out[i].estimated1RM == out[j].estimated1RM ==>
      exists p, q :: 0 <= p < q < |rs| && rs[p] == out[i] && rs[q] == out[j]
  }

  /** A pair whose first record is the inserted head keeps its order: the head is first in `rs`. */
  lemma InsertStableHead(rs: seq<PersonalRecord>, sorted: seq<PersonalRecord>, m: nat, j: int)
    requires |rs| > 0 && m <= |sorted|
    requires multiset(sorted) == multiset(rs[1..])
    requires m < j < |sorted| + 1
    ensures exists p, q :: 0 <= p < q < |rs| && rs[p] == Splice(sorted, m, rs[0])[m] && rs[q] == Splice(sorted, m, rs[0])[j]
  {
    var tail := rs[1..];
    var y := sorted[j - 1];
    assert y in multiset(tail);
    var q :| 0 <= q < |tail| && tail[q] == y;
    assert rs[0] == Splice(sorted, m, rs[0])[m] && rs[q + 1] == Splice(sorted, m, rs[0])[j];
  }

  /** A pair of records from the tail keeps the order the tail's stable sort gave it. */
  lemma InsertStableTail(rs: seq<PersonalRecord>, sorted: seq<PersonalRecord>, m: nat, i: int, j: int)
    requires |rs| > 0 && m <= |sorted|
    requires StableFrom(rs[1..], sorted)
    requires 0 <= i < j < |sorted| + 1 && i != m && j != m
    requires Splice(sorted, m, rs[0])[i].estimated1RM == Splice(sorted, m, rs[0])[j].estimated1RM
    ensures exists p, q :: 0 <= p < q < |rs| && rs[p] == Splice(sorted, m, rs[0])[i] && rs[q] == Splice(sorted, m, rs[0])[j]
  {
    var tail := rs[1..];
    var out := Splice(sorted, m, rs[0]);
    var i' := if i < m then i else i - 1;
    var j' := if j < m then j else j - 1;
    assert out[i] == sorted[i'] && out[j] == sorted[j'] && i' < j';
    var p, q :| 0 <= p < q < |tail| && tail[p] == sorted[i'] && tail[q] == sorted[j'];
    assert rs[p + 1] == out[i] && rs[q + 1] == out[j];
  }

  /** Inserting the head of `rs` into a stable sort of its tail keeps the result stable. */
  lemma InsertStable(rs: seq<PersonalRecord>, sorted: seq<PersonalRecord>)
    requires |rs| > 0
    requires SortedByEstimate(sorted) && multiset(sorted) == multiset(rs[1..])
    requires StableFrom(rs[1..], sorted)
    ensures StableFrom(rs, InsertByEstimate(rs[0], sorted))
  {
    var m := InsertPosition(rs[0], sorted);
    var out := Splice(sorted, m, rs[0]);
    forall i, j | 0 <= i < j < |out| && out[i].estimated1RM == out[j].estimated1RM
      ensures exists p, q :: 0 <= p < q < |rs| && rs[p] == out[i] && rs[q] == out[j]
    {
      if i == m {
        InsertStableHead(rs, sorted, m, j);
      } else if j != m {
        InsertStableTail(rs, sorted, m, i, j);
      }
    }
  }

  /** The sort is stable, as `Array.prototype.sort` is. */
  lemma {:induction false} SortByEstimateStable(rs: seq<PersonalRecord>)
    ensures StableFrom(rs, SortByEstimate(rs))
  {
    if rs != [] {
      SortByEstimateStable(rs[1..]);
      InsertStable(rs, SortByEstimate(rs[1..]));
    }
  }

  /** `getPersonalRecords`, as a function of the history. */
  ghost function PersonalRecordsOf(ws: seq<Workout>): seq<PersonalRecord> {
    SortByEstimate(Values(Scan(HistoryCandidates(ws))))
  }

  /** Offering one more candidate is one more step of the scan. */
  lemma ScanSnoc(cs: seq<PersonalRecord>, c: PersonalRecord)
    ensures Scan(cs + [c]) == Offer(Scan(cs), c)
  {
    assert (cs + [c])[..|cs|] == cs;
  }

  /** One pass of the innermost loop body, on the scanned table. */
  lemma SetStep(done: seq<PersonalRecord>, name: string, date: Timestamp, sets: seq<WorkoutSet>, k: int)
    requires 0 <= k < |sets|
    ensures Scan(done + SetCandidates(name, date, sets[..k + 1])) ==
      if Qualifies(sets[k]) then Offer(Scan(done + SetCandidates(name, date, sets[..k])), CandidateOf(name, date, sets[k]))
      else Scan(done + SetCandidates(name, date, sets[..k]))
  {
    var prefix := done + SetCandidates(name, date, sets[..k]);
    assert sets[..k + 1][..k] == sets[..k];
    if Qualifies(sets[k]) {
      ScanSnoc(prefix, CandidateOf(name, date, sets[k]));
      assert done + SetCandidates(name, date, sets[..k + 1]) == prefix + [CandidateOf(name, date, sets[k])];
    } else {
      assert done + SetCandidates(name, date, sets[..k + 1]) == prefix;
    }
  }

  /** Finishing an entry's sets finishes that entry. */
  lemma ExerciseStep(before: seq<PersonalRecord>, date: Timestamp, es: seq<WorkoutExercise>, j: int)
    requires 0 <= j < |es|
    ensures before + ExerciseCandidates(date, es[..j]) + SetCandidates(es[j].exercise.name, date, es[j].sets[..|es[j].sets|])
      == before + ExerciseCandidates(date, es[..j + 1])
  {
    assert es[..j + 1][..j] == es[..j];
    assert es[j].sets[..|es[j].sets|] == es[j].sets;
  }

  /** Finishing a workout's entries finishes that workout. */
  lemma HistoryStep(ws: seq<Workout>, i: int)
    requires 0 <= i < |ws|
    ensures HistoryCandidates(ws[..i]) + ExerciseCandidates(ws[i].date, ws[i].exercises[..|ws[i].exercises|])
      == HistoryCandidates(ws[..i + 1])
  {
    assert ws[..i + 1][..i] == ws[..i];
    assert ws[i].exercises[..|ws[i].exercises|] == ws[i].exercises;
  }

  /** `getPersonalRecords`: the three loops fill the table, whose values are then sorted. */
  method GetPersonalRecords(workouts: seq<Workout>) returns (records: seq<PersonalRecord>)
    ensures records == PersonalRecordsOf(workouts)
  {
    var best: map<string, PersonalRecord> := map[];
    var order: seq<string> := [];
    for i := 0 to |workouts|
      invariant RecordTable(best, order) == Scan(HistoryCandidates(workouts[..i]))
    {
      var w := workouts[i];
      ghost var before := HistoryCandidates(workouts[..i]);
      assert before + ExerciseCandidates(w.date, w.exercises[..0]) == before;
      for j := 0 to |w.exercises|
        invariant RecordTable(best, order) == Scan(before + ExerciseCandidates(w.date, w.exercises[..j]))
      {
        var we := w.exercises[j];
        ghost var done := before + ExerciseCandidates(w.date, w.exercises[..j]);
        assert done + SetCandidates(we.exercise.name, w.date, we.sets[..0]) == done;
        for k := 0 to |we.sets|
          invariant RecordTable(best, order) == Scan(done + SetCandidates(we.exercise.name, w.date, we.sets[..k]))
        {
          var s := we.sets[k];
          SetStep(done, we.exercise.name, w.date, we.sets, k);
          if !s.completed || s.weight <= 0 {
            continue;
          }
          var name := we.exercise.name;
          var e1rm := Calc1RM(s.weight, s.reps);
          if name !in best {
            best := best[name := PersonalRecord(name, s.weight, s.reps, w.date, e1rm)];
            order := order + [name];
          } else if e1rm > best[name].estimated1RM {
            best := best[name := PersonalRecord(name, s.weight, s.reps, w.date, e1rm)];
          }
        }
        ExerciseStep(before, w.date, w.exercises, j);
      }
      HistoryStep(workouts, i);
    }
    assert workouts[..|workouts|] == workouts;
    records := SortByEstimate(Values(RecordTable(best, order)));
  }

  // ---------------------------------------------------------------------
  // What the records promise about the history.
  // ---------------------------------------------------------------------

  /** Records of the table's values are its entries, one per name. */
  lemma ValuesMembers(t: RecordTable)
    requires Consistent(t)
    ensures forall r :: r in Values(t) <==> r.exerciseName in t.best && r == t.best[r.exerciseName]
    ensures forall i, j :: 0 <= i < j < |Values(t)| ==> Values(t)[i].exerciseName != Values(t)[j].exerciseName
  {
    forall r: PersonalRecord | r.exerciseName in t.best && r == t.best[r.exerciseName]
      ensures r in Values(t)
    {
      var i :| 0 <= i < |t.order| && t.order[i] == r.exerciseName;
      assert Values(t)[i] == r;
    }
  }

  /** A sequence without repeats holds each value at most once. */
  lemma {:induction false} DistinctMultiplicity(s: seq<PersonalRecord>, x: PersonalRecord)
    requires forall i, j :: 0 <= i < j < |s| ==> s[i] != s[j]
    ensures multiset(s)[x] <= 1
  {
    if s != [] {
      assert s == [s[0]] + s[1..];
      DistinctMultiplicity(s[1..], x);
      if s[0] == x {
        assert x !in s[1..];
      }
    }
  }

  /** A value at two positions is held at least twice. */
  lemma RepeatMultiplicity(s: seq<PersonalRecord>, i: int, j: int)
    requires 0 <= i < j < |s| && s[i] == s[j]
    ensures multiset(s)[s[i]] >= 2
  {
    assert s == s[..i] + [s[i]] + s[i + 1..j] + [s[j]] + s[j + 1..];
  }

  /** The facts the table guarantees, stated of the sorted output. */
  lemma RecordsOfTable(t: RecordTable)
    requires Consistent(t)
    ensures forall r :: r in SortByEstimate(Values(t)) <==> r.exerciseName in t.best && r == t.best[r.exerciseName]
    ensures forall i, j :: 0 <= i < j < |SortByEstimate(Values(t))| ==>
      SortByEstimate(Values(t))[i].exerciseName != SortByEstimate(Values(t))[j].exerciseName
  {
    var vs := Values(t);
    var out := SortByEstimate(vs);
    ValuesMembers(t);
    assert forall r :: r in out <==> r in multiset(vs);
    forall i, j | 0 <= i < j < |out|
      ensures out[i].exerciseName != out[j].exerciseName
    {
      if out[i].exerciseName == out[j].exerciseName {
        assert out[i] in multiset(vs) && out[j] in multiset(vs);
        RepeatMultiplicity(out, i, j);
        DistinctMultiplicity(vs, out[i]);
        assert false;
      }
    }
  }

  /** Every candidate is matched or beaten by the record of its name. */
  lemma ScanRecordsMaximal(cs: seq<PersonalRecord>)
    ensures forall i :: 0 <= i < |cs| ==>
      exists r :: r in SortByEstimate(Values(Scan(cs))) && r.exerciseName == cs[i].exerciseName && cs[i].estimated1RM <= r.estimated1RM
  {
    var t := Scan(cs);
    RecordsOfTable(t);
    ScanMaximal(cs);
    forall i | 0 <= i < |cs|
      ensures exists r :: r in SortByEstimate(Values(t)) && r.exerciseName == cs[i].exerciseName && cs[i].estimated1RM <= r.estimated1RM
    {
      assert t.best[cs[i].exerciseName] in SortByEstimate(Values(t));
    }
  }

  /** `r` is some candidate with no earlier candidate of its name as large. */
  ghost predicate KeptEarliest(cs: seq<PersonalRecord>, r: PersonalRecord) {
    exists j :: 0 <= j < |cs| && cs[j] == r && FirstMaximumAt(cs, j)
  }

  /** Every record is a candidate with no earlier candidate of its name as large. */
  lemma ScanRecordsFirstMaximum(cs: seq<PersonalRecord>)
    ensures forall r :: r in SortByEstimate(Values(Scan(cs))) ==> KeptEarliest(cs, r)
  {
    var t := Scan(cs);
    RecordsOfTable(t);
    forall r | r in SortByEstimate(Values(t))
      ensures KeptEarliest(cs, r)
    {
      ScanKeepsFirstMaximum(cs, r.exerciseName);
    }
  }

  /** `getPersonalRecords` lists one record per exercise name, by decreasing estimate. */
  lemma PersonalRecordsSortedAndDistinct(ws: seq<Workout>)
    ensures SortedByEstimate(PersonalRecordsOf(ws))
    ensures forall i, j :: 0 <= i < j < |PersonalRecordsOf(ws)| ==>
      PersonalRecordsOf(ws)[i].exerciseName != PersonalRecordsOf(ws)[j].exerciseName
  {
    RecordsOfTable(Scan(HistoryCandidates(ws)));
  }

  /**
   * Every completed set of positive weight is matched or beaten by the
   * record of its exercise's name, so every such name has a record.
   */
  lemma PersonalRecordsMaximal(ws: seq<Workout>)
    ensures forall c :: FromQualifyingSet(ws, c) ==>
      exists r :: r in PersonalRecordsOf(ws) && r.exerciseName == c.exerciseName && c.estimated1RM <= r.estimated1RM
  {
    var cs := HistoryCandidates(ws);
    HistoryCandidatesAreQualifyingSets(ws);
    ScanRecordsMaximal(cs);
    forall c | FromQualifyingSet(ws, c)
      ensures exists r :: r in PersonalRecordsOf(ws) && r.exerciseName == c.exerciseName && c.estimated1RM <= r.estimated1RM
    {
      var i :| 0 <= i < |cs| && cs[i] == c;
    }
  }

  /** Every record is made by a completed set of positive weight in the history. */
  lemma PersonalRecordsFromSets(ws: seq<Workout>)
    ensures forall r :: r in PersonalRecordsOf(ws) ==> FromQualifyingSet(ws, r)
  {
    var cs := HistoryCandidates(ws);
    ScanRecordsFirstMaximum(cs);
    forall r | r in PersonalRecordsOf(ws)
      ensures r in cs
    {
      var j :| 0 <= j < |cs| && cs[j] == r && FirstMaximumAt(cs, j);
    }
    HistoryCandidatesAreQualifyingSets(ws);
  }

  /**
   * No earlier qualifying set of a record's name, in history order, reaches
   * its estimate: on a tie the earliest set is kept.
   */
  lemma PersonalRecordsKeepEarliest(ws: seq<Workout>)
    ensures forall r :: r in PersonalRecordsOf(ws) ==> KeptEarliest(HistoryCandidates(ws), r)
  {
    ScanRecordsFirstMaximum(HistoryCandidates(ws));
  }

  /** Records of equal estimate keep the order in which their names first set a record. */
  lemma PersonalRecordsTiesInInsertionOrder(ws: seq<Workout>)
    ensures StableFrom(Values(Scan(HistoryCandidates(ws))), PersonalRecordsOf(ws))
  {
    SortByEstimateStable(Values(Scan(HistoryCandidates(ws))));
  }

  /** A workout of one entry for `ex`, dated `date`, holding `sets`. */
  function OneEntryWorkout(ex: Exercise, date: Timestamp, sets: seq<WorkoutSet>): Workout {
    Workout(1, "Push", date, None, [WorkoutExercise(2, ex, sets)], None, true)
  }

  const Light := WorkoutSet(3, 100, 5, Normal, true, None, None)
  const Heavy := WorkoutSet(4, 110, 3, Normal, true, None, None)
  const Unticked := WorkoutSet(5, 140, 1, Normal, false, None, None)

  /** The unticked set makes no candidate; the other two make one each, in set order. */
  lemma BenchPressCandidates(ex: Exercise, date: Timestamp)
    ensures HistoryCandidates([OneEntryWorkout(ex, date, [Light, Heavy])]) ==
      [CandidateOf(ex.name, date, Light), CandidateOf(ex.name, date, Heavy)]
    ensures HistoryCandidates([OneEntryWorkout(ex, date, [Heavy, Light, Unticked])]) ==
      [CandidateOf(ex.name, date, Heavy), CandidateOf(ex.name, date, Light)]
  {
    var cl := CandidateOf(ex.name, date, Light);
    var ch := CandidateOf(ex.name, date, Heavy);
    assert [Light][..0] == [] && [Heavy][..0] == [];
    assert SetCandidates(ex.name, date, [Light]) == [cl];
    assert SetCandidates(ex.name, date, [Heavy]) == [ch];
    assert [Light, Heavy][..1] == [Light];
    assert SetCandidates(ex.name, date, [Light, Heavy]) == [cl, ch];
    assert [Heavy, Light][..1] == [Heavy];
    assert SetCandidates(ex.name, date, [Heavy, Light]) == [ch, cl];
    assert [Heavy, Light, Unticked][..2] == [Heavy, Light];
    assert SetCandidates(ex.name, date, [Heavy, Light, Unticked]) == [ch, cl];
    var w1 := OneEntryWorkout(ex, date, [Light, Heavy]);
    var w2 := OneEntryWorkout(ex, date, [Heavy, Light, Unticked]);
    assert [w1][..0] == [] && [w2][..0] == [];
    assert w1.exercises[..0] == [] && w2.exercises[..0] == [];
    assert ExerciseCandidates(date, w1.exercises) == [cl, ch];
    assert ExerciseCandidates(date, w2.exercises) == [ch, cl];
  }

  /**
   * 100 x 5 estimates 117 and 110 x 3 estimates 121, so 110 x 3 is the
   * record whichever comes first; a heavier set left unticked is ignored.
   */
  lemma BenchPressRecord(ex: Exercise, date: Timestamp)
    ensures PersonalRecordsOf([OneEntryWorkout(ex, date, [Light, Heavy])]) == [PersonalRecord(ex.name, 110, 3, date, 121)]
    ensures PersonalRecordsOf([OneEntryWorkout(ex, date, [Heavy, Light, Unticked])]) == [PersonalRecord(ex.name, 110, 3, date, 121)]
  {
    assert Calc1RM(100, 5) == 117;
    assert Calc1RM(110, 3) == 121;
    var cl := CandidateOf(ex.name, date, Light);
    var ch := CandidateOf(ex.name, date, Heavy);
    BenchPressCandidates(ex, date);
    var t := RecordTable(map[ex.name := ch], [ex.name]);
    assert [cl, ch][..1] == [cl] && [ch, cl][..1] == [ch];
    assert [cl][..0] == [] && [ch][..0] == [];
    assert Scan([cl]) == RecordTable(map[ex.name := cl], [ex.name]);
    assert Scan([ch]) == t;
    assert Scan([cl, ch]) == t;
    assert Scan([ch, cl]) == t;
    assert Values(t) == [ch];
  }
}
