/**
 * The entity model of the workout tracker: the three enumerations, their
 * lookup tables, and the records that the store and the metrics work on.
 *
 * Abstractions: identifiers produced by the store's id generator are the
 * counter values it hands out (`Id`); timestamps (ISO-8601 strings in the
 * application) are milliseconds since the Unix epoch; weights and repetition
 * counts are integers.
 */
module WorkoutTypes {
  import opened Wrappers

  /** The eleven primary muscle groups. */
  datatype MuscleGroup =
    | Chest | Back | Shoulders | Biceps | Triceps
    | Forearms | Core | Quads | Hamstrings | Glutes | Calves

  /** The eight equipment kinds. */
  datatype Equipment =
    | Barbell | Dumbbell | Machine | Cable
    | Bodyweight | SmithMachine | Kettlebell | ResistanceBand

  /** The seven kinds of set. */
  datatype SetType =
    | Warmup | Normal | Failure | Drop
    | Superset | Assisted | Tempo

  const AllMuscleGroups: seq<MuscleGroup> :=
    [Chest, Back, Shoulders, Biceps, Triceps, Forearms, Core, Quads, Hamstrings, Glutes, Calves]

  const AllEquipment: seq<Equipment> :=
    [Barbell, Dumbbell, Machine, Cable, Bodyweight, SmithMachine, Kettlebell, ResistanceBand]

  const AllSetTypes: seq<SetType> :=
    [Warmup, Normal, Failure, Drop, Superset, Assisted, Tempo]

  /** The string value of a muscle group, as stored in records and matched by the search. */
  function MuscleGroupKey(m: MuscleGroup): string {
    match m
    case Chest => "chest"
    case Back => "back"
    case Shoulders => "shoulders"
    case Biceps => "biceps"
    case Triceps => "triceps"
    case Forearms => "forearms"
    case Core => "core"
    case Quads => "quads"
    case Hamstrings => "hamstrings"
    case Glutes => "glutes"
    case Calves => "calves"
  }

  /** The string value of an equipment kind. */
  function EquipmentKey(e: Equipment): string {
    match e
    case Barbell => "barbell"
    case Dumbbell => "dumbbell"
    case Machine => "machine"
    case Cable => "cable"
    case Bodyweight => "bodyweight"
    case SmithMachine => "smith_machine"
    case Kettlebell => "kettlebell"
    case ResistanceBand => "resistance_band"
  }

  /** SET_TYPE_LABELS */
  function SetTypeLabel(t: SetType): string {
    match t
    case Warmup => "Warm-up"
    case Normal => "Normal"
    case Failure => "Failure"
    case Drop => "Drop"
    case Superset => "Superset"
    case Assisted => "Assisted"
    case Tempo => "Tempo"
  }

  /** SET_TYPE_COLORS: the style class each kind of set is drawn with. */
  function SetTypeColor(t: SetType): string {
    match t
    case Warmup => "text-warning"
    case Normal => "text-foreground"
    case Failure => "text-primary"
    case Drop => "text-accent"
    case Superset => "text-success"
    case Assisted => "text-muted-foreground"
    case Tempo => "text-secondary-foreground"
  }

  /** MUSCLE_GROUP_LABELS */
  function MuscleGroupLabel(m: MuscleGroup): string {
    match m
    case Chest => "Chest"
    case Back => "Back"
    case Shoulders => "Shoulders"
    case Biceps => "Biceps"
    case Triceps => "Triceps"
    case Forearms => "Forearms"
    case Core => "Core"
    case Quads => "Quads"
    case Hamstrings => "Hamstrings"
    case Glutes => "Glutes"
    case Calves => "Calves"
  }

  /** EQUIPMENT_LABELS */
  function EquipmentLabel(e: Equipment): string {
    match e
    case Barbell => "Barbell"
    case Dumbbell => "Dumbbell"
    case Machine => "Machine"
    case Cable => "Cable"
    case Bodyweight => "Bodyweight"
    case SmithMachine => "Smith Machine"
    case Kettlebell => "Kettlebell"
    case ResistanceBand => "Band"
  }

  /** An identifier handed out by the store's id generator. */
  type Id = nat

  /** Milliseconds since the Unix epoch. */
  type Timestamp = int

  /** A catalog entry or user-defined exercise. */
  datatype Exercise = Exercise(
    id: string,
    name: string,
    muscleGroup: MuscleGroup,
    secondaryMuscles: Option<seq<MuscleGroup>>,
    equipment: Equipment,
    instructions: Option<string>,
    isCustom: Option<bool>)

  /** One performance of an exercise; `restTime` and `notes` are optional. */
  datatype WorkoutSet = WorkoutSet(
    id: Id,
    weight: int,
    reps: int,
    setType: SetType,
    completed: bool,
    restTime: Option<int>,
    notes: Option<string>)

  /** An exercise inside a workout: a copy of the exercise by value, and its ordered sets. */
  datatype WorkoutExercise = WorkoutExercise(
    id: Id,
    exercise: Exercise,
    sets: seq<WorkoutSet>)

  /** A session; `duration` (minutes) and `notes` are optional. */
  datatype Workout = Workout(
    id: Id,
    name: string,
    date: Timestamp,
    duration: Option<int>,
    exercises: seq<WorkoutExercise>,
    notes: Option<string>,
    completed: bool)

  /** One entry of a routine template: an exercise and how many sets to start it with. */
  datatype RoutineEntry = RoutineEntry(exercise: Exercise, defaultSets: int)

  /** A saved routine template. */
  datatype Routine = Routine(
    id: Id,
    name: string,
    exercises: seq<RoutineEntry>,
    createdAt: Timestamp,
    lastUsed: Option<Timestamp>)

  /** The enumeration of set types has exactly seven distinct values. */
  lemma SetTypesEnumerated()
    ensures |AllSetTypes| == 7
    ensures forall t: SetType :: t in AllSetTypes
    ensures forall i, j :: 0 <= i < j < |AllSetTypes| ==> AllSetTypes[i] != AllSetTypes[j]
  {
    forall t: SetType ensures t in AllSetTypes {
      match t
      case Warmup => assert AllSetTypes[0] == t;
      case Normal => assert AllSetTypes[1] == t;
      case Failure => assert AllSetTypes[2] == t;
      case Drop => assert AllSetTypes[3] == t;
      case Superset => assert AllSetTypes[4] == t;
      case Assisted => assert AllSetTypes[5] == t;
      case Tempo => assert AllSetTypes[6] == t;
    }
  }

  /** The enumeration of muscle groups has exactly eleven distinct values. */
  lemma MuscleGroupsEnumerated()
    ensures |AllMuscleGroups| == 11
    ensures forall m: MuscleGroup :: m in AllMuscleGroups
    ensures forall i, j :: 0 <= i < j < |AllMuscleGroups| ==> AllMuscleGroups[i] != AllMuscleGroups[j]
  {
    forall m: MuscleGroup ensures m in AllMuscleGroups {
      match m
      case Chest => assert AllMuscleGroups[0] == m;
      case Back => assert AllMuscleGroups[1] == m;
      case Shoulders => assert AllMuscleGroups[2] == m;
      case Biceps => assert AllMuscleGroups[3] == m;
      case Triceps => assert AllMuscleGroups[4] == m;
      case Forearms => assert AllMuscleGroups[5] == m;
      case Core => assert AllMuscleGroups[6] == m;
      case Quads => assert AllMuscleGroups[7] == m;
      case Hamstrings => assert AllMuscleGroups[8] == m;
      case Glutes => assert AllMuscleGroups[9] == m;
      case Calves => assert AllMuscleGroups[10] == m;
    }
  }

  /** The enumeration of equipment kinds has exactly eight distinct values. */
  lemma EquipmentEnumerated()
    ensures |AllEquipment| == 8
    ensures forall e: Equipment :: e in AllEquipment
    ensures forall i, j :: 0 <= i < j < |AllEquipment| ==> AllEquipment[i] != AllEquipment[j]
  {
    forall e: Equipment ensures e in AllEquipment {
      match e
      case Barbell => assert AllEquipment[0] == e;
      case Dumbbell => assert AllEquipment[1] == e;
      case Machine => assert AllEquipment[2] == e;
      case Cable => assert AllEquipment[3] == e;
      case Bodyweight => assert AllEquipment[4] == e;
      case SmithMachine => assert AllEquipment[5] == e;
      case Kettlebell => assert AllEquipment[6] == e;
      case ResistanceBand => assert AllEquipment[7] == e;
    }
  }

  /** The set-type tables give every kind a label and a colour, and no two kinds the same label. */
  lemma SetTypeTablesTotal()
    ensures forall t: SetType :: |SetTypeLabel(t)| > 0 && |SetTypeColor(t)| > 0
    ensures forall t, u: SetType :: SetTypeLabel(t) == SetTypeLabel(u) ==> t == u
  {
  }

  /** Every muscle group has a label and a key, and distinct groups differ in both. */
  lemma MuscleGroupTablesTotal()
    ensures forall m: MuscleGroup :: |MuscleGroupLabel(m)| > 0 && |MuscleGroupKey(m)| > 0
    ensures forall m, n: MuscleGroup :: MuscleGroupLabel(m) == MuscleGroupLabel(n) ==> m == n
    ensures forall m, n: MuscleGroup :: MuscleGroupKey(m) == MuscleGroupKey(n) ==> m == n
  {
  }

  /** Every equipment kind has a label and a key, and distinct kinds differ in both. */
  lemma EquipmentTablesTotal()
    ensures forall e: Equipment :: |EquipmentLabel(e)| > 0 && |EquipmentKey(e)| > 0
    ensures forall e, f: Equipment :: EquipmentLabel(e) == EquipmentLabel(f) ==> e == f
    ensures forall e, f: Equipment :: EquipmentKey(e) == EquipmentKey(f) ==> e == f
  {
  }
}
