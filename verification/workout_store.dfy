/** The workout session store (store/workout-store.ts): at most one active workout, a history
    of finished ones, and the exercise templates. Generated ids (`Date.now` and `Math.random`)
    and clock reads (`new Date()`) are parameters of the actions; turning a stored ISO start time
    into an instant is a parameter of the weekly statistics. */
module Workouts {
  import opened Common

  datatype WorkoutSet = WorkoutSet(
    id: string,
    weight: real,
    reps: int,
    completed: bool,
    restTime: Option<int>)

  datatype Exercise = Exercise(
    id: string,
    name: string,
    category: string,
    muscleGroups: seq<string>,
    sets: seq<WorkoutSet>)

  /** `startTime` and `endTime` are ISO strings; `date` is the day part of `startTime`. */
  datatype Workout = Workout(
    id: string,
    name: Option<string>,
    date: string,
    startTime: string,
    endTime: Option<string>,
    duration: real,
    exercises: seq<Exercise>,
    completed: bool,
    notes: Option<string>)

  /** The argument of `addExercise`: an exercise without its id and sets. */
  datatype ExerciseDraft = ExerciseDraft(name: string, category: string, muscleGroups: seq<string>)

  /** The argument of `addSet`: a set without its id. */
  datatype SetDraft = SetDraft(weight: real, reps: int, completed: bool, restTime: Option<int>)

  /** The argument of `updateSet`: the fields of a set that are supplied. */
  datatype SetPatch = SetPatch(
    id: Option<string>,
    weight: Option<real>,
    reps: Option<int>,
    completed: Option<bool>,
    restTime: Option<int>)

  /** What `getWeeklyStats` returns. */
  datatype Stats = Stats(workouts: nat, totalDuration: real, totalSets: nat)

  /** The eight built-in exercise templates, each with no sets. */
  const DefaultExerciseTemplates: seq<Exercise> := [
    Exercise("1", "Bench Press", "Chest", ["Chest", "Triceps", "Shoulders"], []),
    Exercise("2", "Squat", "Legs", ["Quadriceps", "Glutes", "Hamstrings"], []),
    Exercise("3", "Deadlift", "Back", ["Back", "Hamstrings", "Glutes"], []),
    Exercise("4", "Pull-ups", "Back", ["Back", "Biceps"], []),
    Exercise("5", "Overhead Press", "Shoulders", ["Shoulders", "Triceps"], []),
    Exercise("6", "Barbell Row", "Back", ["Back", "Biceps"], []),
    Exercise("7", "Dips", "Chest", ["Chest", "Triceps"], []),
    Exercise("8", "Lunges", "Legs", ["Quadriceps", "Glutes"], [])
  ]

  /** The templates have distinct ids and start without sets. */
  lemma DefaultTemplatesWellFormed()
    ensures |DefaultExerciseTemplates| == 8
    ensures forall i, j :: 0 <= i < j < |DefaultExerciseTemplates| ==>
      DefaultExerciseTemplates[i].id != DefaultExerciseTemplates[j].id
    ensures forall i :: 0 <= i < |DefaultExerciseTemplates| ==> DefaultExerciseTemplates[i].sets == []
  {
  }

  /** The workout `startWorkout` creates: no exercises, zero duration, not completed. */
  function NewWorkout(id: string, name: Option<string>, nowIso: string): (w: Workout)
    ensures w.id == id && w.name == name && w.startTime == nowIso
    ensures w.date <= nowIso && 'T' !in w.date
    ensures w.exercises == [] && w.duration == 0.0 && !w.completed
    ensures w.endTime.None? && w.notes.None?
  {
    Workout(id, name, TextBefore(nowIso, 'T'), nowIso, None, 0.0, [], false, None)
  }

  /** The day of a start time `<day>T<time>` is `<day>`. */
  lemma NewWorkoutDate(id: string, name: Option<string>, day: string, time: string)
    requires 'T' !in day
    ensures NewWorkout(id, name, day + "T" + time).date == day
  {
    TextBeforeJoin(day, 'T', time);
  }

  /** The number of sets over all the exercises. */
  function TotalSets(exs: seq<Exercise>): nat
    decreases |exs|
  {
    if exs == [] then 0 else |exs[0].sets| + TotalSets(exs[1..])
  }

  /** The number of exercises with the id. */
  function ExercisesWithId(exs: seq<Exercise>, exerciseId: string): (n: nat)
    ensures n <= |exs|
    ensures n == 0 <==> forall i :: 0 <= i < |exs| ==> exs[i].id != exerciseId
    decreases |exs|
  {
    if exs == [] then 0
    else (if exs[0].id == exerciseId then 1 else 0) + ExercisesWithId(exs[1..], exerciseId)
  }

  /** Filtering out an id removes exactly the exercises that carry it. */
  lemma {:induction false} WithoutExerciseCount(exs: seq<Exercise>, exerciseId: string)
    ensures |Filter(exs, (ex: Exercise) => ex.id != exerciseId)| + ExercisesWithId(exs, exerciseId) == |exs|
    decreases |exs|
  {
    if exs != [] {
      WithoutExerciseCount(exs[1..], exerciseId);
    }
  }

  /** `exercises.filter(ex => ex.id !== exerciseId)` */
  function WithoutExercise(exs: seq<Exercise>, exerciseId: string): (r: seq<Exercise>)
    ensures forall ex :: ex in r <==> ex in exs && ex.id != exerciseId
    ensures |r| + ExercisesWithId(exs, exerciseId) == |exs|
  {
    WithoutExerciseCount(exs, exerciseId);
    Filter(exs, (ex: Exercise) => ex.id != exerciseId)
  }

  /** The surviving exercises keep their order: removing from a concatenation is
      concatenating the removals. */
  lemma WithoutExerciseAppend(a: seq<Exercise>, b: seq<Exercise>, exerciseId: string)
    ensures WithoutExercise(a + b, exerciseId) == WithoutExercise(a, exerciseId) + WithoutExercise(b, exerciseId)
  {
    FilterAppend(a, b, (ex: Exercise) => ex.id != exerciseId);
  }

  /** Removing the exercise just appended under a fresh id gives the list back. */
  lemma AddThenRemoveExercise(exs: seq<Exercise>, ex: Exercise)
    requires forall i :: 0 <= i < |exs| ==> exs[i].id != ex.id
    ensures WithoutExercise(exs + [ex], ex.id) == exs
  {
    WithoutExerciseAppend(exs, [ex], ex.id);
    FilterKeepsAll(exs, (e: Exercise) => e.id != ex.id);
    FilterDropsOnly(ex, (e: Exercise) => e.id != ex.id);
    assert exs + [] == exs;
  }

  /** `{ ...ex, sets: [...ex.sets, newSet] }` on every exercise with the id. */
  function AddSetTo(exs: seq<Exercise>, exerciseId: string, s: WorkoutSet): (r: seq<Exercise>)
    ensures |r| == |exs|
    ensures forall i :: 0 <= i < |exs| && exs[i].id != exerciseId ==> r[i] == exs[i]
    ensures forall i :: 0 <= i < |exs| && exs[i].id == exerciseId ==> r[i] == exs[i].(sets := exs[i].sets + [s])
    decreases |exs|
  {
    if exs == [] then []
    else
      var ex := exs[0];
      [if ex.id == exerciseId then ex.(sets := ex.sets + [s]) else ex] + AddSetTo(exs[1..], exerciseId, s)
  }

  /** `addSet` adds one set per exercise carrying the id, and no set elsewhere. */
  lemma {:induction false} AddSetTotal(exs: seq<Exercise>, exerciseId: string, s: WorkoutSet)
    ensures TotalSets(AddSetTo(exs, exerciseId, s)) == TotalSets(exs) + ExercisesWithId(exs, exerciseId)
    decreases |exs|
  {
    if exs != [] {
      var r := AddSetTo(exs, exerciseId, s);
      assert r[1..] == AddSetTo(exs[1..], exerciseId, s);
      AddSetTotal(exs[1..], exerciseId, s);
    }
  }

  /** `{ ...set, ...updates }`: every supplied field overwrites the set's own. */
  function ApplySetPatch(s: WorkoutSet, p: SetPatch): WorkoutSet {
    WorkoutSet(
      if p.id.Some? then p.id.value else s.id,
      if p.weight.Some? then p.weight.value else s.weight,
      if p.reps.Some? then p.reps.value else s.reps,
      if p.completed.Some? then p.completed.value else s.completed,
      if p.restTime.Some? then p.restTime else s.restTime)
  }

  /** A patch that supplies nothing. */
  const EmptySetPatch: SetPatch := SetPatch(None, None, None, None, None)

  /** Merging an empty patch changes nothing; merging a patch twice is merging it once. */
  lemma SetPatchLaws(s: WorkoutSet, p: SetPatch)
    ensures ApplySetPatch(s, EmptySetPatch) == s
    ensures ApplySetPatch(ApplySetPatch(s, p), p) == ApplySetPatch(s, p)
  {
  }

  /** Field by field: a supplied field wins and an unsupplied one keeps the set's value. */
  lemma SetPatchFields(s: WorkoutSet, p: SetPatch)
    ensures var r := ApplySetPatch(s, p);
      && (p.id.Some? ==> r.id == p.id.value) && (p.id.None? ==> r.id == s.id)
      && (p.weight.Some? ==> r.weight == p.weight.value) && (p.weight.None? ==> r.weight == s.weight)
      && (p.reps.Some? ==> r.reps == p.reps.value) && (p.reps.None? ==> r.reps == s.reps)
      && (p.completed.Some? ==> r.completed == p.completed.value) && (p.completed.None? ==> r.completed == s.completed)
      && (p.restTime.Some? ==> r.restTime == p.restTime) && (p.restTime.None? ==> r.restTime == s.restTime)
  {
  }

  /** `sets.map(set => set.id === setId ? { ...set, ...updates } : set)` */
  function PatchSets(sets: seq<WorkoutSet>, setId: string, p: SetPatch): (r: seq<WorkoutSet>)
    ensures |r| == |sets|
    ensures forall j :: 0 <= j < |sets| && sets[j].id != setId ==> r[j] == sets[j]
    ensures forall j :: 0 <= j < |sets| && sets[j].id == setId ==> r[j] == ApplySetPatch(sets[j], p)
    decreases |sets|
  {
    if sets == [] then []
    else
      [if sets[0].id == setId then ApplySetPatch(sets[0], p) else sets[0]] + PatchSets(sets[1..], setId, p)
  }

  /** `updateSet`'s map over the exercises: only the sets with `setId` inside the exercises
      with `exerciseId` are patched. */
  function UpdateSetIn(exs: seq<Exercise>, exerciseId: string, setId: string, p: SetPatch): (r: seq<Exercise>)
    ensures |r| == |exs|
    ensures forall i :: 0 <= i < |exs| && exs[i].id != exerciseId ==> r[i] == exs[i]
    ensures forall i :: 0 <= i < |exs| && exs[i].id == exerciseId ==>
      r[i] == exs[i].(sets := PatchSets(exs[i].sets, setId, p))
    decreases |exs|
  {
    if exs == [] then []
    else
      var ex := exs[0];
      [if ex.id == exerciseId then ex.(sets := PatchSets(ex.sets, setId, p)) else ex]
        + UpdateSetIn(exs[1..], exerciseId, setId, p)
  }

  /** `updateSet` changes no set count. */
  lemma {:induction false} UpdateSetTotal(exs: seq<Exercise>, exerciseId: string, setId: string, p: SetPatch)
    ensures TotalSets(UpdateSetIn(exs, exerciseId, setId, p)) == TotalSets(exs)
    decreases |exs|
  {
    if exs != [] {
      var r := UpdateSetIn(exs, exerciseId, setId, p);
      assert r[1..] == UpdateSetIn(exs[1..], exerciseId, setId, p);
      UpdateSetTotal(exs[1..], exerciseId, setId, p);
    }
  }

  /** `updateSet` with an empty patch changes nothing. */
  lemma UpdateSetEmptyPatch(exs: seq<Exercise>, exerciseId: string, setId: string)
    ensures UpdateSetIn(exs, exerciseId, setId, EmptySetPatch) == exs
  {
    var r := UpdateSetIn(exs, exerciseId, setId, EmptySetPatch);
    forall i | 0 <= i < |exs| && exs[i].id == exerciseId ensures r[i] == exs[i] {
      var sets := exs[i].sets;
      var ps := PatchSets(sets, setId, EmptySetPatch);
      forall j | 0 <= j < |sets| ensures ps[j] == sets[j] {
        SetPatchLaws(sets[j], EmptySetPatch);
      }
      assert ps == sets;
    }
  }

  /** The number of sets with the id. */
  function SetsWithId(sets: seq<WorkoutSet>, setId: string): (n: nat)
    ensures n <= |sets|
    ensures n == 0 <==> forall j :: 0 <= j < |sets| ==> sets[j].id != setId
    decreases |sets|
  {
    if sets == [] then 0
    else (if sets[0].id == setId then 1 else 0) + SetsWithId(sets[1..], setId)
  }

  /** Filtering out an id removes exactly the sets that carry it. */
  lemma {:induction false} WithoutSetCount(sets: seq<WorkoutSet>, setId: string)
    ensures |Filter(sets, (s: WorkoutSet) => s.id != setId)| + SetsWithId(sets, setId) == |sets|
    decreases |sets|
  {
    if sets != [] {
      WithoutSetCount(sets[1..], setId);
    }
  }

  /** `sets.filter(set => set.id !== setId)` */
  function WithoutSet(sets: seq<WorkoutSet>, setId: string): (r: seq<WorkoutSet>)
    ensures forall s :: s in r <==> s in sets && s.id != setId
    ensures |r| + SetsWithId(sets, setId) == |sets|
  {
    WithoutSetCount(sets, setId);
    Filter(sets, (s: WorkoutSet) => s.id != setId)
  }

  /** The surviving sets keep their order: removing from a concatenation is concatenating
      the removals. */
  lemma WithoutSetAppend(a: seq<WorkoutSet>, b: seq<WorkoutSet>, setId: string)
    ensures WithoutSet(a + b, setId) == WithoutSet(a, setId) + WithoutSet(b, setId)
  {
    FilterAppend(a, b, (s: WorkoutSet) => s.id != setId);
  }

  /** Removing the set just appended under a fresh id gives the list back. */
  lemma AppendThenRemoveSet(sets: seq<WorkoutSet>, s: WorkoutSet)
    requires forall j :: 0 <= j < |sets| ==> sets[j].id != s.id
    ensures WithoutSet(sets + [s], s.id) == sets
  {
    WithoutSetAppend(sets, [s], s.id);
    FilterKeepsAll(sets, (t: WorkoutSet) => t.id != s.id);
    FilterDropsOnly(s, (t: WorkoutSet) => t.id != s.id);
    assert sets + [] == sets;
  }

  /** `removeSet`'s map over the exercises: the exercises with `exerciseId` lose their sets
      with `setId`. */
  function RemoveSetFrom(exs: seq<Exercise>, exerciseId: string, setId: string): (r: seq<Exercise>)
    ensures |r| == |exs|
    ensures forall i :: 0 <= i < |exs| && exs[i].id != exerciseId ==> r[i] == exs[i]
    ensures forall i :: 0 <= i < |exs| && exs[i].id == exerciseId ==>
      r[i] == exs[i].(sets := WithoutSet(exs[i].sets, setId))
    decreases |exs|
  {
    if exs == [] then []
    else
      var ex := exs[0];
      [if ex.id == exerciseId then ex.(sets := WithoutSet(ex.sets, setId)) else ex]
        + RemoveSetFrom(exs[1..], exerciseId, setId)
  }

  /** The number of sets with `setId` inside the exercises with `exerciseId`. */
  function MatchingSets(exs: seq<Exercise>, exerciseId: string, setId: string): nat
    decreases |exs|
  {
    if exs == [] then 0
    else
      var here := if exs[0].id == exerciseId then SetsWithId(exs[0].sets, setId) else 0;
      here + MatchingSets(exs[1..], exerciseId, setId)
  }

  /** `removeSet` takes away exactly the matching sets. */
  lemma {:induction false} RemoveSetTotal(exs: seq<Exercise>, exerciseId: string, setId: string)
    ensures TotalSets(RemoveSetFrom(exs, exerciseId, setId)) + MatchingSets(exs, exerciseId, setId) == TotalSets(exs)
    decreases |exs|
  {
    if exs != [] {
      var r := RemoveSetFrom(exs, exerciseId, setId);
      assert r[1..] == RemoveSetFrom(exs[1..], exerciseId, setId);
      RemoveSetTotal(exs[1..], exerciseId, setId);
    }
  }

  /** Removing the set just added under a fresh id gives the exercises back. */
  lemma AddThenRemoveSet(exs: seq<Exercise>, exerciseId: string, s: WorkoutSet)
    requires forall i, j :: 0 <= i < |exs| && exs[i].id == exerciseId && 0 <= j < |exs[i].sets| ==>
      exs[i].sets[j].id != s.id
    ensures RemoveSetFrom(AddSetTo(exs, exerciseId, s), exerciseId, s.id) == exs
  {
    var added := AddSetTo(exs, exerciseId, s);
    var r := RemoveSetFrom(added, exerciseId, s.id);
    forall i | 0 <= i < |exs| ensures r[i] == exs[i] {
      if exs[i].id == exerciseId {
        AppendThenRemoveSet(exs[i].sets, s);
      }
    }
  }

  /** Counted by `getWeeklyStats`: completed, and started at or after `weekStart`. A start time
      that does not parse (an invalid date) compares false. */
  predicate InWeek(w: Workout, weekStart: int, instantOf: string -> Option<int>) {
    w.completed && match instantOf(w.startTime)
      case Some(t) => t >= weekStart
      case None => false
  }

  /** `workoutHistory.filter(...)` of `getWeeklyStats`. */
  function WeeklyWorkouts(history: seq<Workout>, weekStart: int, instantOf: string -> Option<int>): (r: seq<Workout>)
    ensures |r| <= |history|
    ensures forall w :: w in r <==> w in history && InWeek(w, weekStart, instantOf)
    decreases |history|
  {
    if history == [] then []
    else
      (if InWeek(history[0], weekStart, instantOf) then [history[0]] else [])
        + WeeklyWorkouts(history[1..], weekStart, instantOf)
  }

  /** The sum of the durations. */
  function DurationSum(ws: seq<Workout>): real
    decreases |ws|
  {
    if ws == [] then 0.0 else ws[0].duration + DurationSum(ws[1..])
  }

  /** The sum over the workouts of their set counts. */
  function SetSum(ws: seq<Workout>): nat
    decreases |ws|
  {
    if ws == [] then 0 else TotalSets(ws[0].exercises) + SetSum(ws[1..])
  }

  /** `getWeeklyStats` against the instant a week ago. */
  function WeeklyStats(history: seq<Workout>, weekStart: int, instantOf: string -> Option<int>): (r: Stats)
    ensures r.workouts <= |history|
    ensures history == [] ==> r == Stats(0, 0.0, 0)
  {
    var weekly := WeeklyWorkouts(history, weekStart, instantOf);
    Stats(|weekly|, DurationSum(weekly), SetSum(weekly))
  }

  /** Putting a workout at the head of the history adds it to the statistics exactly when it
      counts for the week. */
  lemma WeeklyStatsPrepend(w: Workout, history: seq<Workout>, weekStart: int, instantOf: string -> Option<int>)
    ensures var before := WeeklyStats(history, weekStart, instantOf);
      WeeklyStats([w] + history, weekStart, instantOf) ==
        if InWeek(w, weekStart, instantOf) then
          Stats(before.workouts + 1, w.duration + before.totalDuration, TotalSets(w.exercises) + before.totalSets)
        else before
  {
    var all := [w] + history;
    assert all[0] == w && all[1..] == history;
    var weekly := WeeklyWorkouts(history, weekStart, instantOf);
    if InWeek(w, weekStart, instantOf) {
      var counted := WeeklyWorkouts(all, weekStart, instantOf);
      assert counted == [w] + weekly;
      assert counted[0] == w && counted[1..] == weekly;
    } else {
      assert WeeklyWorkouts(all, weekStart, instantOf) == [] + weekly == weekly;
    }
  }

  /** A later week start never counts more workouts. */
  lemma {:induction false} WeeklyStatsMonotone(history: seq<Workout>, early: int, late: int, instantOf: string -> Option<int>)
    requires early <= late
    ensures WeeklyStats(history, late, instantOf).workouts <= WeeklyStats(history, early, instantOf).workouts
    decreases |history|
  {
    if history != [] {
      WeeklyStatsMonotone(history[1..], early, late, instantOf);
    }
  }

  /** Every workout in the history is completed. */
  predicate AllCompleted(history: seq<Workout>) {
    forall i :: 0 <= i < |history| ==> history[i].completed
  }

  class WorkoutStore {
    var currentWorkout: Option<Workout>
    var workoutHistory: seq<Workout>
    var exerciseTemplates: seq<Exercise>

    /** The history holds finished workouts; the active one, if any, is unfinished. */
    ghost predicate Valid()
      reads this
    {
      AllCompleted(workoutHistory) && (currentWorkout.Some? ==> !currentWorkout.value.completed)
    }

    /** The initial state: no active workout, no history, the default templates. */
    constructor ()
      ensures Valid()
      ensures currentWorkout.None? && workoutHistory == [] && exerciseTemplates == DefaultExerciseTemplates
    {
      currentWorkout := None;
      workoutHistory := [];
      exerciseTemplates := DefaultExerciseTemplates;
    }

    /** `startWorkout(name)`: a fresh workout becomes the active one, replacing any other. */
    method StartWorkout(name: Option<string>, id: string, nowIso: string)
      requires Valid()
      modifies this
      ensures Valid()
      ensures currentWorkout == Some(NewWorkout(id, name, nowIso))
      ensures unchanged(this`workoutHistory, this`exerciseTemplates)
    {
      currentWorkout := Some(NewWorkout(id, name, nowIso));
    }

    /** `endWorkout(duration)`: the active workout, completed with the given duration and end
        time, goes to the front of the history; without one nothing happens. */
    method EndWorkout(duration: real, nowIso: string)
      requires Valid()
      modifies this
      ensures Valid()
      ensures old(currentWorkout).None? ==> unchanged(this)
      ensures old(currentWorkout).Some? ==>
        && currentWorkout.None?
        && workoutHistory ==
          [old(currentWorkout).value.(endTime := Some(nowIso), duration := duration, completed := true)] + old(workoutHistory)
      ensures unchanged(this`exerciseTemplates)
    {
      if currentWorkout.None? {
        return;
      }
      var completedWorkout := currentWorkout.value.(endTime := Some(nowIso), duration := duration, completed := true);
      currentWorkout, workoutHistory := None, [completedWorkout] + workoutHistory;
    }

    /** `addExercise(exercise)`: the active workout gains the exercise, with the given id and no
        sets, at the end of its list. */
    method AddExercise(draft: ExerciseDraft, id: string)
      requires Valid()
      modifies this
      ensures Valid()
      ensures old(currentWorkout).None? ==> unchanged(this)
      ensures old(currentWorkout).Some? ==> currentWorkout == Some(old(currentWorkout).value.(exercises :=
        old(currentWorkout).value.exercises + [Exercise(id, draft.name, draft.category, draft.muscleGroups, [])]))
      ensures unchanged(this`workoutHistory, this`exerciseTemplates)
    {
      if currentWorkout.None? {
        return;
      }
      var exercise := Exercise(id, draft.name, draft.category, draft.muscleGroups, []);
      var w := currentWorkout.value;
      currentWorkout := Some(w.(exercises := w.exercises + [exercise]));
    }

    /** `removeExercise(exerciseId)`: every exercise with the id leaves the active workout. */
    method RemoveExercise(exerciseId: string)
      requires Valid()
      modifies this
      ensures Valid()
      ensures old(currentWorkout).None? ==> unchanged(this)
      ensures old(currentWorkout).Some? ==> currentWorkout == Some(old(currentWorkout).value.(exercises :=
        WithoutExercise(old(currentWorkout).value.exercises, exerciseId)))
      ensures unchanged(this`workoutHistory, this`exerciseTemplates)
    {
      if currentWorkout.None? {
        return;
      }
      var w := currentWorkout.value;
      currentWorkout := Some(w.(exercises := WithoutExercise(w.exercises, exerciseId)));
    }

    /** `addSet(exerciseId, set)`: the set, with the given id, is appended to every exercise of
        the active workout that carries the exercise id. */
    method AddSet(exerciseId: string, draft: SetDraft, id: string)
      requires Valid()
      modifies this
      ensures Valid()
      ensures old(currentWorkout).None? ==> unchanged(this)
      ensures old(currentWorkout).Some? ==> currentWorkout == Some(old(currentWorkout).value.(exercises :=
        AddSetTo(old(currentWorkout).value.exercises, exerciseId,
          WorkoutSet(id, draft.weight, draft.reps, draft.completed, draft.restTime))))
      ensures unchanged(this`workoutHistory, this`exerciseTemplates)
    {
      if currentWorkout.None? {
        return;
      }
      var newSet := WorkoutSet(id, draft.weight, draft.reps, draft.completed, draft.restTime);
      var w := currentWorkout.value;
      currentWorkout := Some(w.(exercises := AddSetTo(w.exercises, exerciseId, newSet)));
    }

    /** `updateSet(exerciseId, setId, updates)`. */
    method UpdateSet(exerciseId: string, setId: string, updates: SetPatch)
      requires Valid()
      modifies this
      ensures Valid()
      ensures old(currentWorkout).None? ==> unchanged(this)
      ensures old(currentWorkout).Some? ==> currentWorkout == Some(old(currentWorkout).value.(exercises :=
        UpdateSetIn(old(currentWorkout).value.exercises, exerciseId, setId, updates)))
      ensures unchanged(this`workoutHistory, this`exerciseTemplates)
    {
      if currentWorkout.None? {
        return;
      }
      var w := currentWorkout.value;
      currentWorkout := Some(w.(exercises := UpdateSetIn(w.exercises, exerciseId, setId, updates)));
    }

    /** `removeSet(exerciseId, setId)`. */
    method RemoveSet(exerciseId: string, setId: string)
      requires Valid()
      modifies this
      ensures Valid()
      ensures old(currentWorkout).None? ==> unchanged(this)
      ensures old(currentWorkout).Some? ==> currentWorkout == Some(old(currentWorkout).value.(exercises :=
        RemoveSetFrom(old(currentWorkout).value.exercises, exerciseId, setId)))
      ensures unchanged(this`workoutHistory, this`exerciseTemplates)
    {
      if currentWorkout.None? {
        return;
      }
      var w := currentWorkout.value;
      currentWorkout := Some(w.(exercises := RemoveSetFrom(w.exercises, exerciseId, setId)));
    }

    /** `getWeeklyStats()`, where `weekStart` is the instant seven days before now. Every stored
        workout is completed, so only the start time decides. */
    function GetWeeklyStats(weekStart: int, instantOf: string -> Option<int>): (r: Stats)
      reads this
      ensures r == WeeklyStats(workoutHistory, weekStart, instantOf)
      ensures r.workouts <= |workoutHistory|
      ensures Valid() ==> forall w :: w in WeeklyWorkouts(workoutHistory, weekStart, instantOf) <==>
        w in workoutHistory && instantOf(w.startTime).Some? && instantOf(w.startTime).value >= weekStart
    {
      WeeklyStats(workoutHistory, weekStart, instantOf)
    }
  }
}
