/**
 * The built-in exercise catalog and its two lookups: by primary muscle group,
 * and by a free-text query matched case-insensitively against the name, the
 * muscle group and the equipment.
 */
module ExerciseCatalog {
  import opened Wrappers
  import opened WorkoutTypes
  import opened Seqs

  /** A built-in entry: no instructions, not user-created. */
  function Entry(id: string, name: string, m: MuscleGroup, secondary: Option<seq<MuscleGroup>>, e: Equipment): Exercise {
    Exercise(id, name, m, secondary, e, None, None)
  }

  /** The catalog, in its display order. */
  const Exercises: seq<Exercise> := [
    // Chest
    Entry("bench-press", "Bench Press", Chest, Some([Triceps, Shoulders]), Barbell),
    Entry("incline-bench", "Incline Bench Press", Chest, Some([Shoulders, Triceps]), Barbell),
    Entry("db-fly", "Dumbbell Fly", Chest, None, Dumbbell),
    Entry("cable-crossover", "Cable Crossover", Chest, None, Cable),
    Entry("pushup", "Push-Up", Chest, Some([Triceps, Shoulders]), Bodyweight),
    Entry("chest-press-machine", "Chest Press Machine", Chest, None, Machine),
    // Back
    Entry("deadlift", "Deadlift", Back, Some([Hamstrings, Glutes, Forearms]), Barbell),
    Entry("barbell-row", "Barbell Row", Back, Some([Biceps, Forearms]), Barbell),
    Entry("pullup", "Pull-Up", Back, Some([Biceps]), Bodyweight),
    Entry("lat-pulldown", "Lat Pulldown", Back, Some([Biceps]), Cable),
    Entry("seated-row", "Seated Cable Row", Back, Some([Biceps]), Cable),
    Entry("db-row", "Dumbbell Row", Back, Some([Biceps]), Dumbbell),
    // Shoulders
    Entry("ohp", "Overhead Press", Shoulders, Some([Triceps]), Barbell),
    Entry("lateral-raise", "Lateral Raise", Shoulders, None, Dumbbell),
    Entry("face-pull", "Face Pull", Shoulders, Some([Back]), Cable),
    Entry("arnold-press", "Arnold Press", Shoulders, Some([Triceps]), Dumbbell),
    // Biceps
    Entry("barbell-curl", "Barbell Curl", Biceps, Some([Forearms]), Barbell),
    Entry("db-curl", "Dumbbell Curl", Biceps, None, Dumbbell),
    Entry("hammer-curl", "Hammer Curl", Biceps, Some([Forearms]), Dumbbell),
    Entry("preacher-curl", "Preacher Curl", Biceps, None, Machine),
    // Triceps
    Entry("tricep-pushdown", "Tricep Pushdown", Triceps, None, Cable),
    Entry("skull-crusher", "Skull Crusher", Triceps, None, Barbell),
    Entry("overhead-extension", "Overhead Tricep Extension", Triceps, None, Dumbbell),
    Entry("dips", "Dips", Triceps, Some([Chest, Shoulders]), Bodyweight),
    // Forearms
    Entry("wrist-curl", "Wrist Curl", Forearms, None, Barbell),
    Entry("reverse-curl", "Reverse Curl", Forearms, None, Barbell),
    // Core
    Entry("crunch", "Crunch", Core, None, Bodyweight),
    Entry("plank", "Plank", Core, None, Bodyweight),
    Entry("leg-raise", "Hanging Leg Raise", Core, None, Bodyweight),
    Entry("cable-crunch", "Cable Crunch", Core, None, Cable),
    // Quads
    Entry("squat", "Barbell Squat", Quads, Some([Glutes, Hamstrings, Core]), Barbell),
    Entry("leg-press", "Leg Press", Quads, Some([Glutes]), Machine),
    Entry("leg-extension", "Leg Extension", Quads, None, Machine),
    Entry("front-squat", "Front Squat", Quads, Some([Core, Glutes]), Barbell),
    Entry("lunge", "Lunge", Quads, Some([Glutes, Hamstrings]), Dumbbell),
    // Hamstrings
    Entry("rdl", "Romanian Deadlift", Hamstrings, Some([Glutes, Back]), Barbell),
    Entry("leg-curl", "Leg Curl", Hamstrings, None, Machine),
    Entry("nordic-curl", "Nordic Curl", Hamstrings, None, Bodyweight),
    // Glutes
    Entry("hip-thrust", "Hip Thrust", Glutes, Some([Hamstrings]), Barbell),
    Entry("glute-bridge", "Glute Bridge", Glutes, None, Bodyweight),
    Entry("cable-kickback", "Cable Kickback", Glutes, None, Cable),
    // Calves
    Entry("calf-raise", "Standing Calf Raise", Calves, None, Machine),
    Entry("seated-calf-raise", "Seated Calf Raise", Calves, None, Machine)
  ]

  /** Lower-cases an ASCII capital letter; every other character is left alone. */
  function LowerChar(c: char): char {
    if 'A' <= c <= 'Z' then (c as int + 32) as char else c
  }

  /** The string holds no ASCII capital letter. */
  predicate IsLowerCase(s: string) {
    forall i :: 0 <= i < |s| ==> !('A' <= s[i] <= 'Z')
  }

  /** `s.toLowerCase()`, restricted to ASCII letters. */
  function ToLower(s: string): (r: string)
    ensures |r| == |s|
    ensures forall i :: 0 <= i < |s| ==> r[i] == LowerChar(s[i])
    ensures IsLowerCase(r)
  {
    if s == [] then [] else [LowerChar(s[0])] + ToLower(s[1..])
  }

  /** Lower-casing a string that has no capitals gives it back unchanged. */
  lemma {:induction false} ToLowerFixesLowerCase(s: string)
    requires IsLowerCase(s)
    ensures ToLower(s) == s
  {
    if s != [] {
      ToLowerFixesLowerCase(s[1..]);
      assert [s[0]] + s[1..] == s;
    }
  }

  /** Lower-casing twice is lower-casing once. */
  lemma ToLowerIdempotent(s: string)
    ensures ToLower(ToLower(s)) == ToLower(s)
  {
    ToLowerFixesLowerCase(ToLower(s));
  }

  /** `s.includes(sub)`: `sub` occurs in `s` as a contiguous block. */
  predicate Includes(s: string, sub: string)
    decreases |s|
  {
    (|sub| <= |s| && s[..|sub|] == sub) || (|s| > 0 && Includes(s[1..], sub))
  }

  /** `sub` sits in `s` starting at offset `i`. */
  predicate OccursAt(s: string, sub: string, i: int) {
    0 <= i && i + |sub| <= |s| && s[i..i + |sub|] == sub
  }

  /** `Includes` holds exactly when `sub` sits in `s` at some offset. */
  lemma {:induction false} IncludesAtOffset(s: string, sub: string)
    ensures Includes(s, sub) <==> exists i :: OccursAt(s, sub, i)
  {
    if |sub| <= |s| && s[..|sub|] == sub {
      assert OccursAt(s, sub, 0);
    }
    if |s| > 0 {
      IncludesAtOffset(s[1..], sub);
      if Includes(s[1..], sub) {
        var i :| OccursAt(s[1..], sub, i);
        assert s[1..][i..i + |sub|] == s[i + 1..i + 1 + |sub|];
        assert OccursAt(s, sub, i + 1);
      }
      if exists i :: OccursAt(s, sub, i) {
        var i :| OccursAt(s, sub, i);
        if i > 0 {
          assert s[1..][i - 1..i - 1 + |sub|] == s[i..i + |sub|];
          assert OccursAt(s[1..], sub, i - 1);
        }
      }
    } else {
      if exists i :: OccursAt(s, sub, i) {
        var i :| OccursAt(s, sub, i);
        assert sub == [] && s[..0] == sub;
      }
    }
  }

  /** The test `searchExercises` applies to one entry, for a query already lower-cased. */
  predicate MatchesQuery(e: Exercise, q: string) {
    || Includes(ToLower(e.name), q)
    || Includes(MuscleGroupKey(e.muscleGroup), q)
    || Includes(EquipmentKey(e.equipment), q)
  }

  /** Entries of `catalog` whose primary muscle group is `muscle`, in catalog order. */
  function ByMuscle(catalog: seq<Exercise>, muscle: string): (r: seq<Exercise>)
    ensures IsSubsequence(r, catalog)
    ensures forall i :: 0 <= i < |r| ==> r[i] in catalog && MuscleGroupKey(r[i].muscleGroup) == muscle
    ensures forall i :: 0 <= i < |catalog| ==> (catalog[i] in r <==> MuscleGroupKey(catalog[i].muscleGroup) == muscle)
  {
    var keep := (e: Exercise) => MuscleGroupKey(e.muscleGroup) == muscle;
    FilterIsSubsequence(catalog, keep);
    Filter(catalog, keep)
  }

  /** Entries of `catalog` that match the lower-cased `query`, in catalog order. */
  function Search(catalog: seq<Exercise>, query: string): (r: seq<Exercise>)
    ensures IsSubsequence(r, catalog)
    ensures forall i :: 0 <= i < |r| ==> r[i] in catalog && MatchesQuery(r[i], ToLower(query))
    ensures forall i :: 0 <= i < |catalog| ==> (catalog[i] in r <==> MatchesQuery(catalog[i], ToLower(query)))
  {
    var q := ToLower(query);
    var keep := (e: Exercise) => MatchesQuery(e, q);
    FilterIsSubsequence(catalog, keep);
    Filter(catalog, keep)
  }

  /** `getExercisesByMuscle`: exactly the catalog entries whose primary group has the key `muscle`. */
  function ExercisesByMuscle(muscle: string): (r: seq<Exercise>)
    ensures forall e :: e in r <==> e in Exercises && MuscleGroupKey(e.muscleGroup) == muscle
  {
    ByMuscle(Exercises, muscle)
  }

  /** `searchExercises`: exactly the catalog entries that match the lower-cased query. */
  function SearchExercises(query: string): (r: seq<Exercise>)
    ensures forall e :: e in r <==> e in Exercises && MatchesQuery(e, ToLower(query))
  {
    Search(Exercises, query)
  }

  /** The empty query matches every entry. */
  lemma SearchEmptyQueryKeepsAll(catalog: seq<Exercise>)
    ensures Search(catalog, "") == catalog
  {
    var keep := (e: Exercise) => MatchesQuery(e, ToLower(""));
    forall i | 0 <= i < |catalog| ensures keep(catalog[i]) {
      assert Includes(ToLower(catalog[i].name), "");
    }
    FilterKeepsAll(catalog, keep);
  }

  /** The search ignores the case of the query. */
  lemma SearchIgnoresQueryCase(catalog: seq<Exercise>, query: string)
    ensures Search(catalog, query) == Search(catalog, ToLower(query))
  {
    ToLowerIdempotent(query);
  }

  /** Muscle-group keys are already lower-case. */
  lemma MuscleGroupKeyIsLowerCase(m: MuscleGroup)
    ensures ToLower(MuscleGroupKey(m)) == MuscleGroupKey(m)
  {
    assert IsLowerCase(MuscleGroupKey(m));
    ToLowerFixesLowerCase(MuscleGroupKey(m));
  }

  /** Searching for a muscle group's key finds every entry of that group. */
  lemma SearchFindsMuscleGroup(catalog: seq<Exercise>, m: MuscleGroup)
    ensures forall e :: e in ByMuscle(catalog, MuscleGroupKey(m)) ==> e in Search(catalog, MuscleGroupKey(m))
  {
    var key := MuscleGroupKey(m);
    MuscleGroupKeyIsLowerCase(m);
    forall e | e in ByMuscle(catalog, key) ensures e in Search(catalog, key) {
      var j :| 0 <= j < |catalog| && catalog[j] == e;
      assert key[..|key|] == key;
      assert Includes(MuscleGroupKey(e.muscleGroup), key);
    }
  }

  /** An entry of the group in the catalog makes the lookup non-empty. */
  lemma ByMuscleNonEmpty(catalog: seq<Exercise>, k: nat, m: MuscleGroup)
    requires k < |catalog| && catalog[k].muscleGroup == m
    ensures ByMuscle(catalog, MuscleGroupKey(m)) != []
  {
    assert catalog[k] in ByMuscle(catalog, MuscleGroupKey(m));
  }

  // The distinctness of the 43 catalog ids is shown block by block (entries
  // 0-8, 9-17, 18-26, 27-35 and 36-42), which keeps each proof obligation small.

  lemma CatalogIdsDistinct00()
    ensures forall i, j :: 0 <= i < 9 && 0 <= j < 9 && i < j ==> Exercises[i].id != Exercises[j].id
  {
  }

  lemma CatalogIdsDistinct01()
    ensures forall i, j :: 0 <= i < 9 && 9 <= j < 18 && i < j ==> Exercises[i].id != Exercises[j].id
  {
  }

  lemma CatalogIdsDistinct02()
    ensures forall i, j :: 0 <= i < 9 && 18 <= j < 27 && i < j ==> Exercises[i].id != Exercises[j].id
  {
  }

  lemma CatalogIdsDistinct03()
    ensures forall i, j :: 0 <= i < 9 && 27 <= j < 36 && i < j ==> Exercises[i].id != Exercises[j].id
  {
  }

  lemma CatalogIdsDistinct04()
    ensures forall i, j :: 0 <= i < 9 && 36 <= j < 43 && i < j ==> Exercises[i].id != Exercises[j].id
  {
  }

  lemma CatalogIdsDistinct11()
    ensures forall i, j :: 9 <= i < 18 && 9 <= j < 18 && i < j ==> Exercises[i].id != Exercises[j].id
  {
  }

  lemma CatalogIdsDistinct12()
    ensures forall i, j :: 9 <= i < 18 && 18 <= j < 27 && i < j ==> Exercises[i].id != Exercises[j].id
  {
  }

  lemma CatalogIdsDistinct13()
    ensures forall i, j :: 9 <= i < 18 && 27 <= j < 36 && i < j ==> Exercises[i].id != Exercises[j].id
  {
  }

  lemma CatalogIdsDistinct14()
    ensures forall i, j :: 9 <= i < 18 && 36 <= j < 43 && i < j ==> Exercises[i].id != Exercises[j].id
  {
  }

  lemma CatalogIdsDistinct22()
    ensures forall i, j :: 18 <= i < 27 && 18 <= j < 27 && i < j ==> Exercises[i].id != Exercises[j].id
  {
  }

  lemma CatalogIdsDistinct23()
    ensures forall i, j :: 18 <= i < 27 && 27 <= j < 36 && i < j ==> Exercises[i].id != Exercises[j].id
  {
  }

  lemma CatalogIdsDistinct24()
    ensures forall i, j :: 18 <= i < 27 && 36 <= j < 43 && i < j ==> Exercises[i].id != Exercises[j].id
  {
  }

  lemma CatalogIdsDistinct33()
    ensures forall i, j :: 27 <= i < 36 && 27 <= j < 36 && i < j ==> Exercises[i].id != Exercises[j].id
  {
  }

  lemma CatalogIdsDistinct34()
    ensures forall i, j :: 27 <= i < 36 && 36 <= j < 43 && i < j ==> Exercises[i].id != Exercises[j].id
  {
  }

  lemma CatalogIdsDistinct44()
    ensures forall i, j :: 36 <= i < 43 && 36 <= j < 43 && i < j ==> Exercises[i].id != Exercises[j].id
  {
  }

  /** Catalog ids are pairwise distinct. */
  lemma CatalogIdsDistinct()
    ensures forall i, j :: 0 <= i < j < |Exercises| ==> Exercises[i].id != Exercises[j].id
  {
    CatalogIdsDistinct00();
    CatalogIdsDistinct01();
    CatalogIdsDistinct02();
    CatalogIdsDistinct03();
    CatalogIdsDistinct04();
    CatalogIdsDistinct11();
    CatalogIdsDistinct12();
    CatalogIdsDistinct13();
    CatalogIdsDistinct14();
    CatalogIdsDistinct22();
    CatalogIdsDistinct23();
    CatalogIdsDistinct24();
    CatalogIdsDistinct33();
    CatalogIdsDistinct34();
    CatalogIdsDistinct44();
  }

  /** Every muscle group has at least one catalog entry. */
  lemma EveryMuscleGroupCatalogued(m: MuscleGroup)
    ensures ExercisesByMuscle(MuscleGroupKey(m)) != []
  {
    if m.Chest? || m.Back? || m.Shoulders? || m.Biceps? || m.Triceps? {
      UpperBodyCatalogued(m);
    } else {
      LowerBodyCatalogued(m);
    }
  }

  // The two halves of the case split are separate lemmas so that each proof
  // obligation mentions the 43-entry catalog only a few times.

  lemma UpperBodyCatalogued(m: MuscleGroup)
    requires m.Chest? || m.Back? || m.Shoulders? || m.Biceps? || m.Triceps?
    ensures ExercisesByMuscle(MuscleGroupKey(m)) != []
  {
    match m {
      case Chest => ByMuscleNonEmpty(Exercises, 0, m);
      case Back => ByMuscleNonEmpty(Exercises, 6, m);
      case Shoulders => ByMuscleNonEmpty(Exercises, 12, m);
      case Biceps => ByMuscleNonEmpty(Exercises, 16, m);
      case Triceps => ByMuscleNonEmpty(Exercises, 20, m);
    }
  }

  lemma LowerBodyCatalogued(m: MuscleGroup)
    requires !(m.Chest? || m.Back? || m.Shoulders? || m.Biceps? || m.Triceps?)
    ensures ExercisesByMuscle(MuscleGroupKey(m)) != []
  {
    match m {
      case Forearms => ByMuscleNonEmpty(Exercises, 24, m);
      case Core => ByMuscleNonEmpty(Exercises, 26, m);
      case Quads => ByMuscleNonEmpty(Exercises, 30, m);
      case Hamstrings => ByMuscleNonEmpty(Exercises, 35, m);
      case Glutes => ByMuscleNonEmpty(Exercises, 38, m);
      case Calves => ByMuscleNonEmpty(Exercises, 41, m);
    }
  }
}
