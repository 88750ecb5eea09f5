/**
 * The application store: the shared data, the wizard step the data setters
 * raise, and the slice of the state kept across page loads.
 */
module Store {
  import opened Domain
  import App
  import Validation

  /** Every field of the store. */
  datatype AppState = AppState(
    teachers: seq<Teacher>,
    schedules: seq<Schedule>,
    sessions: seq<App.Session>,
    assignments: seq<Assignment>,
    specialTasks: SpecialTasks,
    teacherExclusions: Exclusions,
    historicalStats: HistoricalStats,
    isLoading: bool,
    currentStep: int,
    validationIssues: seq<Validation.ValidationIssue>)

  /** The state before any action. */
  const Initial: AppState :=
    AppState([], [], [], [], SpecialTasks([], []), map[], map[], false, 1, [])

  // ---------------------------------------------------------------------------
  // The step machine

  /** `Math.max(currentStep, floor)`. */
  function RaiseStep(step: int, floor: int): (r: int)
    ensures r >= step && r >= floor
    ensures r == step || r == floor
  {
    if step >= floor then step else floor
  }

  /** The store's actions, without their payloads (the step needs only which action ran). */
  datatype Action =
    | TeachersSet | SchedulesSet | SessionsSet | AssignmentsSet
    | SpecialTasksSet | HistoricalStatsSet | CurrentStepSet(step: int) | LoadingSet

  /** The step a data setter raises the wizard to: 2, 3 and 4 for teachers, schedules and assignments, none for the rest. */
  function Floor(a: Action): int {
    match a
    case TeachersSet => 2
    case SchedulesSet => 3
    case AssignmentsSet => 4
    case _ => 0
  }

  /** The three setters that raise the step. */
  predicate DataSetter(a: Action) { a.TeachersSet? || a.SchedulesSet? || a.AssignmentsSet? }

  /** `currentStep` after one action. */
  function StepAfter(step: int, a: Action): (r: int)
    ensures a.CurrentStepSet? ==> r == a.step
    ensures DataSetter(a) ==> r >= step && r >= Floor(a) && (r == step || r == Floor(a))
    ensures !DataSetter(a) && !a.CurrentStepSet? ==> r == step
  {
    match a
    case TeachersSet => RaiseStep(step, 2)
    case SchedulesSet => RaiseStep(step, 3)
    case AssignmentsSet => RaiseStep(step, 4)
    case CurrentStepSet(n) => n
    case _ => step
  }

  /** `currentStep` after a run of actions. */
  function Run(step: int, actions: seq<Action>): int {
    if actions == [] then step else StepAfter(Run(step, actions[..|actions| - 1]), actions[|actions| - 1])
  }

  predicate NoStepJumps(actions: seq<Action>) {
    forall i :: 0 <= i < |actions| ==> !actions[i].CurrentStepSet?
  }

  /**
   * Without `setCurrentStep` the step never goes down, and it ends at least
   * as high as the floor of every data setter that ran: loading teachers,
   * schedules and assignments, in any order, reaches step 4.
   */
  lemma {:induction false} DataSettersNeverLower(step: int, actions: seq<Action>)
    requires NoStepJumps(actions)
    ensures Run(step, actions) >= step
    ensures forall i :: 0 <= i < |actions| && DataSetter(actions[i]) ==> Run(step, actions) >= Floor(actions[i])
  {
    if actions != [] {
      var init, last := actions[..|actions| - 1], actions[|actions| - 1];
      assert NoStepJumps(init) by {
        forall i | 0 <= i < |init| ensures !init[i].CurrentStepSet? { assert init[i] == actions[i]; }
      }
      DataSettersNeverLower(step, init);
      var before := Run(step, init);
      assert Run(step, actions) == StepAfter(before, last);
      forall i | 0 <= i < |actions| && DataSetter(actions[i]) ensures Run(step, actions) >= Floor(actions[i]) {
        if i < |init| { assert actions[i] == init[i]; }
      }
    }
  }

  /** The step reached from the initial state is the highest floor of the data setters that ran, or 1. */
  lemma {:induction false} StepFromInitial(actions: seq<Action>)
    requires NoStepJumps(actions)
    ensures Run(Initial.currentStep, actions) == 1
         || exists i :: 0 <= i < |actions| && DataSetter(actions[i]) && Run(Initial.currentStep, actions) == Floor(actions[i])
  {
    if actions != [] {
      var init, last := actions[..|actions| - 1], actions[|actions| - 1];
      assert NoStepJumps(init) by {
        forall i | 0 <= i < |init| ensures !init[i].CurrentStepSet? { assert init[i] == actions[i]; }
      }
      StepFromInitial(init);
      var before := Run(Initial.currentStep, init);
      assert Run(Initial.currentStep, actions) == StepAfter(before, last);
      if Run(Initial.currentStep, actions) == before && before != 1 {
        var i :| 0 <= i < |init| && DataSetter(init[i]) && before == Floor(init[i]);
        assert actions[i] == init[i];
      } else if Run(Initial.currentStep, actions) != before {
        assert Run(Initial.currentStep, actions) == Floor(actions[|actions| - 1]);
      }
    }
  }

  // ---------------------------------------------------------------------------
  // Persistence

  /** What `partialize` keeps in storage. */
  datatype PersistedSlice = PersistedSlice(teachers: seq<Teacher>, schedules: seq<Schedule>,
                                           historicalStats: HistoricalStats, specialTasks: SpecialTasks)

  /** `partialize`. */
  function Partialize(s: AppState): PersistedSlice {
    PersistedSlice(s.teachers, s.schedules, s.historicalStats, s.specialTasks)
  }

  /** Loading a stored slice: the slice's fields over the current state, every other field as it was. */
  function Rehydrate(s: AppState, p: PersistedSlice): AppState {
    s.(teachers := p.teachers, schedules := p.schedules, historicalStats := p.historicalStats, specialTasks := p.specialTasks)
  }

  /**
   * Exactly the four persisted fields come back from storage: a stored slice
   * loaded into any state reads back as the same slice, the other fields
   * (the sessions, the assignments, the exclusions and the UI state,
   * `currentStep` included) are those of the state loaded into, and two
   * states that agree on the four fields store the same slice.
   */
  lemma PersistRoundTrip(s: AppState, t: AppState)
    ensures Partialize(Rehydrate(s, Partialize(t))) == Partialize(t)
    ensures var r := Rehydrate(s, Partialize(t));
      r.sessions == s.sessions && r.assignments == s.assignments && r.teacherExclusions == s.teacherExclusions
      && r.isLoading == s.isLoading && r.currentStep == s.currentStep && r.validationIssues == s.validationIssues
    ensures (s.teachers == t.teachers && s.schedules == t.schedules && s.historicalStats == t.historicalStats
             && s.specialTasks == t.specialTasks) <==> Partialize(s) == Partialize(t)
  {
  }

  // ---------------------------------------------------------------------------
  // The store

  class AppStore {
    var teachers: seq<Teacher>
    var schedules: seq<Schedule>
    var sessions: seq<App.Session>
    var assignments: seq<Assignment>
    var specialTasks: SpecialTasks
    var teacherExclusions: Exclusions
    var historicalStats: HistoricalStats
    var isLoading: bool
    var currentStep: int
    var validationIssues: seq<Validation.ValidationIssue>

    /** The fields as one value. */
    function State(): AppState
      reads this
    {
      AppState(teachers, schedules, sessions, assignments, specialTasks, teacherExclusions,
               historicalStats, isLoading, currentStep, validationIssues)
    }

    /** The initial state. */
    constructor()
      ensures State() == Initial
    {
      teachers, schedules, sessions, assignments := [], [], [], [];
      specialTasks := SpecialTasks([], []);
      teacherExclusions, historicalStats := map[], map[];
      isLoading, currentStep, validationIssues := false, 1, [];
    }

    method SetTeachers(ts: seq<Teacher>)
      modifies this
      ensures State() == old(State()).(teachers := ts, currentStep := StepAfter(old(currentStep), TeachersSet))
    {
      teachers := ts;
      currentStep := if currentStep >= 2 then currentStep else 2;
    }

    method SetSchedules(ss: seq<Schedule>)
      modifies this
      ensures State() == old(State()).(schedules := ss, currentStep := StepAfter(old(currentStep), SchedulesSet))
    {
      schedules := ss;
      currentStep := if currentStep >= 3 then currentStep else 3;
    }

    method SetSessions(ss: seq<App.Session>)
      modifies this
      ensures State() == old(State()).(sessions := ss)
    {
      sessions := ss;
    }

    method SetAssignments(list: seq<Assignment>)
      modifies this
      ensures State() == old(State()).(assignments := list, currentStep := StepAfter(old(currentStep), AssignmentsSet))
    {
      assignments := list;
      currentStep := if currentStep >= 4 then currentStep else 4;
    }

    method SetSpecialTasks(tasks: SpecialTasks)
      modifies this
      ensures State() == old(State()).(specialTasks := tasks)
    {
      specialTasks := tasks;
    }

    method SetHistoricalStats(stats: HistoricalStats)
      modifies this
      ensures State() == old(State()).(historicalStats := stats)
    {
      historicalStats := stats;
    }

    method SetCurrentStep(step: int)
      modifies this
      ensures State() == old(State()).(currentStep := step)
    {
      currentStep := step;
    }

    method SetLoading(loading: bool)
      modifies this
      ensures State() == old(State()).(isLoading := loading)
    {
      isLoading := loading;
    }
  }
}
