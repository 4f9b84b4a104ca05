/**
 * The aggregate metrics over the workout history: sets per muscle group,
 * weekly activity buckets, the day streak and the consistency percentage.
 *
 * The current time is a parameter (`now`, in milliseconds since the epoch).
 * A day is the UTC calendar day of a timestamp, `t / DayMs`; a week is
 * exactly seven such days.
 */
module TrainingStats {
  import opened Wrappers
  import opened WorkoutTypes

  // ---------------------------------------------------------------------
  // getMuscleGroupDistribution
  // ---------------------------------------------------------------------

  /** Every entry of every workout, in history order. */
  function AllEntries(ws: seq<Workout>): seq<WorkoutExercise> {
    if ws == [] then []
    else AllEntries(ws[..|ws| - 1]) + ws[|ws| - 1].exercises
  }

  /** The distribution the loops build: each entry adds its set count to its primary group. */
  function Tally(es: seq<WorkoutExercise>): map<MuscleGroup, nat> {
    if es == [] then map[]
    else
      var d := Tally(es[..|es| - 1]);
      var last := es[|es| - 1];
      var mg := last.exercise.muscleGroup;
      d[mg := Lookup(d, mg) + |last.sets|]
  }

  /** `dist[mg] || 0`. */
  function Lookup(d: map<MuscleGroup, nat>, m: MuscleGroup): nat {
    if m in d then d[m] else 0
  }

  /** The number of sets, completed or not, of the entries whose primary group is `m`. */
  function SetsWith(es: seq<WorkoutExercise>, m: MuscleGroup): nat {
    if es == [] then 0
    else SetsWith(es[..|es| - 1], m) + (if es[|es| - 1].exercise.muscleGroup == m then |es[|es| - 1].sets| else 0)
  }

  /** The number of sets of all entries. */
  function TotalSets(es: seq<WorkoutExercise>): nat {
    if es == [] then 0 else TotalSets(es[..|es| - 1]) + |es[|es| - 1].sets|
  }

  /**
   * A group is a key exactly when some entry has it as primary group (even
   * an entry with no sets), and its value is that group's number of sets.
   */
  lemma {:induction false} TallyCharacterized(es: seq<WorkoutExercise>)
    ensures forall m :: m in Tally(es) <==> exists i :: 0 <= i < |es| && es[i].exercise.muscleGroup == m
    ensures forall m :: Lookup(Tally(es), m) == SetsWith(es, m)
  {
    if es != [] {
      var init := es[..|es| - 1];
      TallyCharacterized(init);
      assert forall i :: 0 <= i < |init| ==> init[i] == es[i];
    }
  }

  /** The sum of the distribution's values over the groups `gs`. */
  function TotalOver(d: map<MuscleGroup, nat>, gs: seq<MuscleGroup>): nat {
    if gs == [] then 0 else Lookup(d, gs[0]) + TotalOver(d, gs[1..])
  }

  /** Adding `n` sets to group `m` adds `n` to the sum over groups listed once each, when `m` is listed. */
  lemma {:induction false} TotalOverAdd(d: map<MuscleGroup, nat>, gs: seq<MuscleGroup>, m: MuscleGroup, n: nat)
    requires forall i, j :: 0 <= i < j < |gs| ==> gs[i] != gs[j]
    ensures TotalOver(d[m := Lookup(d, m) + n], gs) == TotalOver(d, gs) + (if m in gs then n else 0)
  {
    if gs != [] {
      assert forall i, j :: 0 <= i < j < |gs[1..]| ==> gs[1..][i] != gs[1..][j] by {
        assert forall i :: 0 <= i < |gs[1..]| ==> gs[1..][i] == gs[i + 1];
      }
      TotalOverAdd(d, gs[1..], m, n);
      assert gs[0] == m ==> m !in gs[1..];
      assert m in gs <==> gs[0] == m || m in gs[1..];
    }
  }

  /** Summed over a list of every group, each once, the distribution counts every set once. */
  lemma {:induction false} TallySumsOver(es: seq<WorkoutExercise>, gs: seq<MuscleGroup>)
    requires forall m: MuscleGroup :: m in gs
    requires forall i, j :: 0 <= i < j < |gs| ==> gs[i] != gs[j]
    ensures TotalOver(Tally(es), gs) == TotalSets(es)
  {
    if es == [] {
      TotalOverEmpty(gs);
    } else {
      var init := es[..|es| - 1];
      var last := es[|es| - 1];
      TallySumsOver(init, gs);
      TotalOverAdd(Tally(init), gs, last.exercise.muscleGroup, |last.sets|);
    }
  }

  lemma {:induction false} TotalOverEmpty(gs: seq<MuscleGroup>)
    ensures TotalOver(map[], gs) == 0
  {
    if gs != [] {
      TotalOverEmpty(gs[1..]);
    }
  }

  /** Summed over all eleven groups, the distribution counts every set exactly once. */
  lemma TallySumsToSets(es: seq<WorkoutExercise>)
    ensures TotalOver(Tally(es), AllMuscleGroups) == TotalSets(es)
  {
    MuscleGroupsEnumerated();
    TallySumsOver(es, AllMuscleGroups);
  }

  /** One pass of the inner loop body. */
  lemma TallyStep(before: seq<WorkoutExercise>, es: seq<WorkoutExercise>, j: int)
    requires 0 <= j < |es|
    ensures Tally(before + es[..j + 1]) ==
      Tally(before + es[..j])[es[j].exercise.muscleGroup := Lookup(Tally(before + es[..j]), es[j].exercise.muscleGroup) + |es[j].sets|]
  {
    assert (before + es[..j + 1])[..|before| + j] == before + es[..j];
  }

  lemma AllEntriesStep(ws: seq<Workout>, i: int)
    requires 0 <= i < |ws|
    ensures AllEntries(ws[..i + 1]) == AllEntries(ws[..i]) + ws[i].exercises
  {
    assert ws[..i + 1][..i] == ws[..i];
  }

  /** `getMuscleGroupDistribution`, keyed by the group rather than by its string value. */
  method GetMuscleGroupDistribution(workouts: seq<Workout>) returns (dist: map<MuscleGroup, nat>)
    ensures dist == Tally(AllEntries(workouts))
  {
    dist := map[];
    for i := 0 to |workouts|
      invariant dist == Tally(AllEntries(workouts[..i]))
    {
      var w := workouts[i];
      ghost var before := AllEntries(workouts[..i]);
      assert before + w.exercises[..0] == before;
      for j := 0 to |w.exercises|
        invariant dist == Tally(before + w.exercises[..j])
      {
        var mg := w.exercises[j].exercise.muscleGroup;
        TallyStep(before, w.exercises, j);
        dist := dist[mg := (if mg in dist then dist[mg] else 0) + |w.exercises[j].sets|];
      }
      assert w.exercises[..|w.exercises|] == w.exercises;
      AllEntriesStep(workouts, i);
    }
    assert workouts[..|workouts|] == workouts;
  }

  /** The distribution of a history, with the promises `getMuscleGroupDistribution` keeps. */
  lemma DistributionCorrect(ws: seq<Workout>)
    ensures forall m :: m in Tally(AllEntries(ws)) <==>
      exists w, we :: w in ws && we in w.exercises && we.exercise.muscleGroup == m
    ensures TotalOver(Tally(AllEntries(ws)), AllMuscleGroups) == TotalSets(AllEntries(ws))
  {
    var es := AllEntries(ws);
    TallyCharacterized(es);
    TallySumsToSets(es);
    AllEntriesMembers(ws);
    forall m
      ensures m in Tally(es) <==> exists w, we :: w in ws && we in w.exercises && we.exercise.muscleGroup == m
    {
      if m in Tally(es) {
        var i :| 0 <= i < |es| && es[i].exercise.muscleGroup == m;
        assert es[i] in es;
      }
      if exists w, we :: w in ws && we in w.exercises && we.exercise.muscleGroup == m {
        var w, we :| w in ws && we in w.exercises && we.exercise.muscleGroup == m;
        assert we in es;
        var i :| 0 <= i < |es| && es[i] == we;
      }
    }
  }

  lemma {:induction false} AllEntriesMembers(ws: seq<Workout>)
    ensures forall we :: we in AllEntries(ws) <==> exists w :: w in ws && we in w.exercises
  {
    if ws != [] {
      AllEntriesMembers(ws[..|ws| - 1]);
      assert ws == ws[..|ws| - 1] + [ws[|ws| - 1]];
    }
  }

  // ---------------------------------------------------------------------
  // getWeeklyActivity
  // ---------------------------------------------------------------------

  const DayMs := 86400000
  const WeekMs := 7 * DayMs

  /** One bucket: the start of its week (the chart label is drawn from it), workouts and volume. */
  datatype WeekBucket = WeekBucket(weekStart: Timestamp, count: nat, volume: int)

  /** Σ weight × reps over the sets, completed or not. */
  function SetsVolume(sets: seq<WorkoutSet>): int {
    if sets == [] then 0 else SetsVolume(sets[..|sets| - 1]) + sets[|sets| - 1].weight * sets[|sets| - 1].reps
  }

  function WorkoutVolume(w: Workout): int {
    EntriesVolume(w.exercises)
  }

  function EntriesVolume(es: seq<WorkoutExercise>): int {
    if es == [] then 0 else EntriesVolume(es[..|es| - 1]) + SetsVolume(es[|es| - 1].sets)
  }

  /** The workouts dated in the half-open interval `[start, end)`. */
  function InWindow(ws: seq<Workout>, start: Timestamp, end: Timestamp): (r: seq<Workout>)
    ensures |r| <= |ws|
    ensures forall i :: 0 <= i < |r| ==> r[i] in ws && start <= r[i].date < end
    ensures forall i :: 0 <= i < |ws| && start <= ws[i].date < end ==> ws[i] in r
  {
    if ws == [] then []
    else
      var rest := InWindow(ws[1..], start, end);
      assert forall i :: 1 <= i < |ws| ==> ws[i] == ws[1..][i - 1];
      (if start <= ws[0].date < end then [ws[0]] else []) + rest
  }

  /** The total volume of `ws`. */
  function HistoryVolume(ws: seq<Workout>): int {
    if ws == [] then 0 else WorkoutVolume(ws[0]) + HistoryVolume(ws[1..])
  }

  /** The instant `i` weeks before `now`. */
  function WeeksBefore(now: Timestamp, i: int): Timestamp {
    now - i * WeekMs
  }

  /** Bucket `i` counts back from `now`: it covers `[now - (i + 1) weeks, now - i weeks)`. */
  function Bucket(ws: seq<Workout>, now: Timestamp, i: int): WeekBucket {
    var inWeek := InWindow(ws, WeeksBefore(now, i + 1), WeeksBefore(now, i));
    WeekBucket(WeeksBefore(now, i + 1), |inWeek|, HistoryVolume(inWeek))
  }

  /** `getWeeklyActivity`: `weeks` buckets, the oldest first. */
  method GetWeeklyActivity(workouts: seq<Workout>, now: Timestamp, weeks: int) returns (result: seq<WeekBucket>)
    ensures |result| == if weeks > 0 then weeks else 0
    ensures forall k :: 0 <= k < |result| ==> result[k] == Bucket(workouts, now, |result| - 1 - k)
  {
    result := [];
    var i := weeks - 1;
    while i >= 0
      invariant weeks <= 0 ==> result == []
      invariant weeks > 0 ==> -1 <= i < weeks && |result| == weeks - 1 - i
      invariant forall k :: 0 <= k < |result| ==> result[k] == Bucket(workouts, now, weeks - 1 - k)
    {
      var weekStart := WeeksBefore(now, i + 1);
      var weekEnd := WeeksBefore(now, i);
      var weekWorkouts := InWindow(workouts, weekStart, weekEnd);
      var volume := HistoryVolume(weekWorkouts);
      assert WeekBucket(weekStart, |weekWorkouts|, volume) == Bucket(workouts, now, i);
      result := result + [WeekBucket(weekStart, |weekWorkouts|, volume)];
      i := i - 1;
    }
  }

  /** `HistoryVolume` over a concatenation. */
  lemma {:induction false} HistoryVolumeAppend(xs: seq<Workout>, ys: seq<Workout>)
    ensures HistoryVolume(xs + ys) == HistoryVolume(xs) + HistoryVolume(ys)
  {
    if xs == [] {
      assert xs + ys == ys;
    } else {
      assert (xs + ys)[1..] == xs[1..] + ys;
      HistoryVolumeAppend(xs[1..], ys);
    }
  }

  /** Splitting a window at an inner point splits its workouts, keeping their order. */
  lemma {:induction false} WindowSplitCount(ws: seq<Workout>, a: Timestamp, b: Timestamp, c: Timestamp)
    requires a <= b <= c
    ensures |InWindow(ws, a, c)| == |InWindow(ws, a, b)| + |InWindow(ws, b, c)|
  {
    if ws != [] {
      WindowSplitCount(ws[1..], a, b, c);
    }
  }

  /** Splitting a window at an inner point splits its volume. */
  lemma {:induction false} WindowSplitVolume(ws: seq<Workout>, a: Timestamp, b: Timestamp, c: Timestamp)
    requires a <= b <= c
    ensures HistoryVolume(InWindow(ws, a, c)) == HistoryVolume(InWindow(ws, a, b)) + HistoryVolume(InWindow(ws, b, c))
  {
    if ws != [] {
      var x := ws[0];
      var rest := ws[1..];
      WindowSplitVolume(rest, a, b, c);
      var head := if a <= x.date < c then [x] else [];
      assert InWindow(ws, a, c) == head + InWindow(rest, a, c);
      HistoryVolumeAppend(head, InWindow(rest, a, c));
      var headAB := if a <= x.date < b then [x] else [];
      var headBC := if b <= x.date < c then [x] else [];
      HistoryVolumeAppend(headAB, InWindow(rest, a, b));
      HistoryVolumeAppend(headBC, InWindow(rest, b, c));
    }
  }

  /** The buckets, oldest first, as `getWeeklyActivity(ws, n)` returns them. */
  function Buckets(ws: seq<Workout>, now: Timestamp, n: nat): (bs: seq<WeekBucket>)
    ensures |bs| == n
    ensures forall k :: 0 <= k < n ==> bs[k] == Bucket(ws, now, n - 1 - k)
  {
    seq(n, k => Bucket(ws, now, n - 1 - k))
  }

  function TotalCount(bs: seq<WeekBucket>): nat {
    if bs == [] then 0 else bs[0].count + TotalCount(bs[1..])
  }

  function TotalVolume(bs: seq<WeekBucket>): int {
    if bs == [] then 0 else bs[0].volume + TotalVolume(bs[1..])
  }

  /**
   * The buckets tile the last `n` weeks: together they count exactly the
   * workouts, and the volume, of `[now - n weeks, now)`.
   */
  lemma {:induction false} BucketsTile(ws: seq<Workout>, now: Timestamp, n: nat)
    ensures TotalCount(Buckets(ws, now, n)) == |InWindow(ws, WeeksBefore(now, n), now)|
    ensures TotalVolume(Buckets(ws, now, n)) == HistoryVolume(InWindow(ws, WeeksBefore(now, n), now))
  {
    if n == 0 {
      assert WeeksBefore(now, 0) == now;
      EmptyWindow(ws, now);
    } else {
      BucketsTile(ws, now, n - 1);
      assert Buckets(ws, now, n)[1..] == Buckets(ws, now, n - 1);
      WeeksBeforeStep(now, n - 1);
      WindowSplitCount(ws, WeeksBefore(now, n), WeeksBefore(now, n - 1), now);
      WindowSplitVolume(ws, WeeksBefore(now, n), WeeksBefore(now, n - 1), now);
    }
  }

  lemma WeeksBeforeStep(now: Timestamp, i: int)
    ensures WeeksBefore(now, i + 1) == WeeksBefore(now, i) - WeekMs
  {
  }

  lemma {:induction false} EmptyWindow(ws: seq<Workout>, t: Timestamp)
    ensures InWindow(ws, t, t) == []
  {
    if ws != [] {
      EmptyWindow(ws[1..], t);
    }
  }

  /**
   * So the counts that `getWeeklyActivity` returns never add up to more than
   * the history holds, and with no workouts every bucket is empty.
   */
  lemma WeeklyCountsBounded(ws: seq<Workout>, now: Timestamp, result: seq<WeekBucket>)
    requires forall k :: 0 <= k < |result| ==> result[k] == Bucket(ws, now, |result| - 1 - k)
    ensures TotalCount(result) <= |ws|
    ensures ws == [] ==> forall k :: 0 <= k < |result| ==> result[k].count == 0 && result[k].volume == 0
  {
    assert result == Buckets(ws, now, |result|);
    BucketsTile(ws, now, |result|);
  }

  /** A workout falls in at most one bucket. */
  lemma BucketsDisjoint(ws: seq<Workout>, now: Timestamp, w: Workout, i: nat, j: nat)
    requires w in InWindow(ws, WeeksBefore(now, i + 1), WeeksBefore(now, i))
    requires w in InWindow(ws, WeeksBefore(now, j + 1), WeeksBefore(now, j))
    ensures i == j
  {
    if i < j {
      WeeksBeforeMonotone(now, i + 1, j);
    } else if j < i {
      WeeksBeforeMonotone(now, j + 1, i);
    }
  }

  lemma WeeksBeforeMonotone(now: Timestamp, i: int, j: int)
    requires i <= j
    ensures WeeksBefore(now, j) <= WeeksBefore(now, i)
  {
    assert j * WeekMs == i * WeekMs + (j - i) * WeekMs;
  }

  // ---------------------------------------------------------------------
  // getStreak and getConsistencyScore
  // ---------------------------------------------------------------------

  /** The UTC calendar day of a timestamp (the date part of its ISO-8601 form). */
  function DayOf(t: Timestamp): int {
    t / DayMs
  }

  /** Stepping back `k` whole days steps back `k` calendar days. */
  lemma DayOfShift(t: Timestamp, k: int)
    ensures DayOf(t - k * DayMs) == DayOf(t) - k
  {
    var q := t / DayMs;
    var r := t % DayMs;
    assert t - k * DayMs == (q - k) * DayMs + r;
  }

  /** `workouts.some(w => w.date.startsWith(dayStr))`: some workout is dated on `day`. */
  function AnyOnDay(ws: seq<Workout>, day: int): (b: bool)
    ensures b <==> exists i :: 0 <= i < |ws| && DayOf(ws[i].date) == day
  {
    if ws == [] then false
    else if DayOf(ws[0].date) == day then true
    else
      assert forall i :: 0 < i < |ws| ==> ws[i] == ws[1..][i - 1];
      AnyOnDay(ws[1..], day)
  }

  /** Some workout is dated `k` days before `today`. */
  predicate ActiveBack(ws: seq<Workout>, today: int, k: int) {
    AnyOnDay(ws, today - k)
  }

  /** The number of consecutive active days from `today - i` backwards, scanning no further than day 364. */
  function Run(ws: seq<Workout>, today: int, i: nat): (n: nat)
    ensures n <= if i < 365 then 365 - i else 0
    decreases 365 - i
  {
    if i >= 365 then 0
    else if ActiveBack(ws, today, i) then 1 + Run(ws, today, i + 1)
    else 0
  }

  /** The streak: today counts when active, but an empty today does not break the run from yesterday. */
  function Streak(ws: seq<Workout>, today: int): nat {
    (if AnyOnDay(ws, today) then 1 else 0) + Run(ws, today, 1)
  }

  /** `getStreak`. */
  method GetStreak(workouts: seq<Workout>, now: Timestamp) returns (count: nat)
    ensures count == Streak(workouts, DayOf(now))
  {
    count := 0;
    var today := DayOf(now);
    for i := 0 to 365
      invariant i == 0 ==> count == 0
      invariant i >= 1 ==> count + Run(workouts, today, i) == Streak(workouts, today)
    {
      DayOfShift(now, i);
      var day := DayOf(now - i * DayMs);
      if AnyOnDay(workouts, day) {
        count := count + 1;
      } else if i > 0 {
        break;
      }
    }
  }

  /** The streak lies in `[0, 365]`. */
  lemma StreakBounded(ws: seq<Workout>, today: int)
    ensures 0 <= Streak(ws, today) <= 365
  {
  }

  /** With no workouts the streak is 0. */
  lemma EmptyHistoryStreak(today: int)
    ensures Streak([], today) == 0
  {
  }

  /**
   * `Run(ws, today, i)` is the length of the longest run of active days
   * starting `i` days back: every day in it is active, and the day after it
   * is inactive unless the 365-day scan ends first.
   */
  lemma {:induction false} RunCharacterized(ws: seq<Workout>, today: int, i: nat)
    ensures forall k :: i <= k < i + Run(ws, today, i) ==> ActiveBack(ws, today, k)
    ensures i + Run(ws, today, i) < 365 ==> !ActiveBack(ws, today, i + Run(ws, today, i))
    decreases 365 - i
  {
    if i < 365 && ActiveBack(ws, today, i) {
      RunCharacterized(ws, today, i + 1);
    }
  }

  /** A finished, empty workout started at `t`. */
  function WorkoutAt(t: Timestamp): Workout {
    Workout(1, "Session", t, None, [], None, true)
  }

  /** Today and yesterday give 2; a gap makes the run stop. */
  lemma StreakTodayAndYesterday(now: Timestamp)
    ensures Streak([WorkoutAt(now), WorkoutAt(now - DayMs)], DayOf(now)) == 2
  {
    var ws := [WorkoutAt(now), WorkoutAt(now - DayMs)];
    var today := DayOf(now);
    DayOfShift(now, 1);
    assert ActiveBack(ws, today, 0) && ActiveBack(ws, today, 1);
    assert !ActiveBack(ws, today, 2);
  }

  /** A workout-free today does not stop the scan: yesterday and the day before give 2. */
  lemma StreakFromYesterday(now: Timestamp)
    ensures Streak([WorkoutAt(now - DayMs), WorkoutAt(now - 2 * DayMs)], DayOf(now)) == 2
  {
    var ws := [WorkoutAt(now - DayMs), WorkoutAt(now - 2 * DayMs)];
    var today := DayOf(now);
    DayOfShift(now, 1);
    DayOfShift(now, 2);
    assert !ActiveBack(ws, today, 0);
    assert ActiveBack(ws, today, 1) && ActiveBack(ws, today, 2);
    assert !ActiveBack(ws, today, 3);
  }

  /** An empty yesterday ends the streak at today. */
  lemma StreakStopsAtGap(now: Timestamp)
    ensures Streak([WorkoutAt(now), WorkoutAt(now - 3 * DayMs)], DayOf(now)) == 1
  {
    var ws := [WorkoutAt(now), WorkoutAt(now - 3 * DayMs)];
    var today := DayOf(now);
    DayOfShift(now, 3);
    assert ActiveBack(ws, today, 0);
    assert !ActiveBack(ws, today, 1);
  }

  /** The number of active days among the `n` days ending today. */
  function ActiveDays(ws: seq<Workout>, today: int, n: nat): (a: nat)
    ensures a <= n
  {
    if n == 0 then 0 else ActiveDays(ws, today, n - 1) + (if ActiveBack(ws, today, n - 1) then 1 else 0)
  }

  /**
   * `Math.round(100 * a / t)` for `t > 0`: the integer nearest the
   * percentage, halves rounding up.
   */
  function RoundPercent(a: nat, t: nat): (p: int)
    requires t > 0
    ensures 2 * t * p <= 200 * a + t < 2 * t * (p + 1)
  {
    (200 * a + t) / (2 * t)
  }

  lemma {:induction false} MulMonotone(k: nat, x: int, y: int)
    requires x <= y
    ensures k * x <= k * y
  {
    if k > 0 {
      MulMonotone(k - 1, x, y);
      assert k * x == (k - 1) * x + x;
      assert k * y == (k - 1) * y + y;
    }
  }

  /** The rounded percentage is the only integer within a half of `100 * a / t`. */
  lemma RoundPercentUnique(a: nat, t: nat, q: int)
    requires t > 0
    requires 2 * t * q <= 200 * a + t < 2 * t * (q + 1)
    ensures RoundPercent(a, t) == q
  {
    var p := RoundPercent(a, t);
    if p < q {
      MulMonotone(2 * t, p + 1, q);
    } else if q < p {
      MulMonotone(2 * t, q + 1, p);
    }
  }

  /** The percentage of `a` days out of `t` lies in `[0, 100]`. */
  lemma RoundPercentBounded(a: nat, t: nat)
    requires 0 < t && a <= t
    ensures 0 <= RoundPercent(a, t) <= 100
  {
    var p := RoundPercent(a, t);
    if p < 0 {
      MulMonotone(2 * t, p + 1, 0);
    } else if p > 100 {
      MulMonotone(2 * t, 101, p);
    }
  }

  /** No active days score 0; every day active scores 100. */
  lemma RoundPercentEnds(t: nat)
    requires t > 0
    ensures RoundPercent(0, t) == 0
    ensures RoundPercent(t, t) == 100
  {
    RoundPercentUnique(0, t, 0);
    RoundPercentUnique(t, t, 100);
  }

  /**
   * `getConsistencyScore`: the percentage of active days among the last
   * `7 * weeks` days. For `weeks == 0` the source divides 0 by 0 and yields
   * NaN, returned here as `None`; a negative `weeks` scans no day and yields 0.
   */
  method GetConsistencyScore(workouts: seq<Workout>, now: Timestamp, weeks: int) returns (score: Option<int>)
    ensures weeks == 0 ==> score == None
    ensures weeks < 0 ==> score == Some(0)
    ensures weeks > 0 ==> score == Some(RoundPercent(ActiveDays(workouts, DayOf(now), 7 * weeks), 7 * weeks))
  {
    var activeDays := 0;
    var totalDays := weeks * 7;
    var today := DayOf(now);
    var i := 0;
    while i < totalDays
      invariant 0 <= i && (totalDays >= 0 ==> i <= totalDays)
      invariant activeDays == ActiveDays(workouts, today, i)
    {
      DayOfShift(now, i);
      if AnyOnDay(workouts, DayOf(now - i * DayMs)) {
        activeDays := activeDays + 1;
      }
      i := i + 1;
    }
    if totalDays == 0 {
      score := None;
    } else if totalDays < 0 {
      score := Some(0);
    } else {
      score := Some(RoundPercent(activeDays, totalDays));
    }
  }

  /** A score, when there is one, lies in `[0, 100]`, and it is 0 for an empty history. */
  lemma ConsistencyBounded(ws: seq<Workout>, today: int, weeks: nat)
    requires weeks > 0
    ensures 0 <= RoundPercent(ActiveDays(ws, today, 7 * weeks), 7 * weeks) <= 100
    ensures RoundPercent(ActiveDays([], today, 7 * weeks), 7 * weeks) == 0
  {
    RoundPercentBounded(ActiveDays(ws, today, 7 * weeks), 7 * weeks);
    EmptyHistoryInactive(today, 7 * weeks);
    RoundPercentEnds(7 * weeks);
  }

  lemma {:induction false} EmptyHistoryInactive(today: int, n: nat)
    ensures ActiveDays([], today, n) == 0
  {
    if n > 0 {
      EmptyHistoryInactive(today, n - 1);
    }
  }
}
