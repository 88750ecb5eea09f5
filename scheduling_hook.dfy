/**
 * The state hook of the basic application: the imported data, the
 * assignments, the exclusion map and the actions that change them.
 */
module SchedulingHook {
  import opened Common
  import opened Sorting
  import opened Domain
  import Validation
  import Scheduling
  import ConflictDetection

  // ---------------------------------------------------------------------------
  // Editing assignments

  /** `findIndex(a => a.id === id)`: the first position with that id, or -1. */
  function FindIndex(s: seq<Assignment>, id: string): (i: int)
    ensures -1 <= i < |s|
    ensures i >= 0 ==> s[i].id == id && forall j :: 0 <= j < i ==> s[j].id != id
    ensures i == -1 <==> forall j :: 0 <= j < |s| ==> s[j].id != id
  {
    if s == [] then -1
    else if s[0].id == id then 0
    else
      var i := FindIndex(s[1..], id);
      if i == -1 then -1 else i + 1
  }

  /** The entry after a manual change of teacher. */
  function Manually(a: Assignment, teacher: string): Assignment {
    a.(teacher := teacher, assignedBy := Manual)
  }

  /** `updateAssignment`: the `map` that re-assigns every entry with the id. */
  function Relabelled(s: seq<Assignment>, id: string, newTeacher: string): (r: seq<Assignment>)
    ensures |r| == |s|
    ensures forall i :: 0 <= i < |s| ==> r[i] == if s[i].id == id then Manually(s[i], newTeacher) else s[i]
  {
    if s == [] then []
    else [if s[0].id == id then Manually(s[0], newTeacher) else s[0]] + Relabelled(s[1..], id, newTeacher)
  }

  /** Re-assigning twice to the same teacher is the same as once; ids are kept. */
  lemma RelabelledIdempotent(s: seq<Assignment>, id: string, newTeacher: string)
    ensures Relabelled(Relabelled(s, id, newTeacher), id, newTeacher) == Relabelled(s, id, newTeacher)
    ensures forall i :: 0 <= i < |s| ==> Relabelled(s, id, newTeacher)[i].id == s[i].id
  {
  }

  /** `swapAssignments` on the copied list. */
  function Swapped(s: seq<Assignment>, id1: string, id2: string): (r: seq<Assignment>)
    ensures |r| == |s|
  {
    var i1, i2 := FindIndex(s, id1), FindIndex(s, id2);
    if i1 == -1 || i2 == -1 then s
    else
      var temp := s[i1].teacher;
      var t := s[i1 := Manually(s[i1], s[i2].teacher)];
      t[i2 := Manually(t[i2], temp)]
  }

  /**
   * With both ids found at different places, the two entries exchange
   * teachers and become `manual`; every other field and entry is kept.
   */
  lemma SwappedExchanges(s: seq<Assignment>, id1: string, id2: string)
    requires FindIndex(s, id1) != -1 && FindIndex(s, id2) != -1 && FindIndex(s, id1) != FindIndex(s, id2)
    ensures var i1, i2, r := FindIndex(s, id1), FindIndex(s, id2), Swapped(s, id1, id2);
      r[i1] == Manually(s[i1], s[i2].teacher) && r[i2] == Manually(s[i2], s[i1].teacher)
      && forall j :: 0 <= j < |s| && j != i1 && j != i2 ==> r[j] == s[j]
  {
  }

  /** An id that is not found leaves the list as it was. */
  lemma SwappedMissing(s: seq<Assignment>, id1: string, id2: string)
    requires (forall j :: 0 <= j < |s| ==> s[j].id != id1) || (forall j :: 0 <= j < |s| ==> s[j].id != id2)
    ensures Swapped(s, id1, id2) == s
  {
  }

  /** Swapping an entry with itself keeps its teacher and marks it `manual`. */
  lemma SwappedSelf(s: seq<Assignment>, id: string)
    requires FindIndex(s, id) != -1
    ensures var i := FindIndex(s, id);
      Swapped(s, id, id) == s[i := s[i].(assignedBy := Manual)]
  {
  }

  /** Swapping the same pair twice gives every entry its original teacher back. */
  lemma SwappedTwice(s: seq<Assignment>, id1: string, id2: string)
    ensures |Swapped(Swapped(s, id1, id2), id1, id2)| == |s|
    ensures forall j :: 0 <= j < |s| ==> Swapped(Swapped(s, id1, id2), id1, id2)[j].teacher == s[j].teacher
  {
    var r := Swapped(s, id1, id2);
    SwappedKeepsIds(s, id1, id2);
    FindIndexSameIds(s, r, id1);
    FindIndexSameIds(s, r, id2);
    var i1, i2 := FindIndex(s, id1), FindIndex(s, id2);
    forall j | 0 <= j < |s| ensures Swapped(r, id1, id2)[j].teacher == s[j].teacher {
      SwappedTeacherAt(r, id1, id2, j);
      SwappedTeacherAt(s, id1, id2, j);
      if i1 != -1 && i2 != -1 {
        SwappedTeacherAt(s, id1, id2, i1);
        SwappedTeacherAt(s, id1, id2, i2);
      }
    }
  }

  /** The teacher at `j` after a swap: the other entry's when `j` is one of the two found places. */
  lemma SwappedTeacherAt(s: seq<Assignment>, id1: string, id2: string, j: int)
    requires 0 <= j < |s|
    ensures var i1, i2 := FindIndex(s, id1), FindIndex(s, id2);
      Swapped(s, id1, id2)[j].teacher
      == if i1 == -1 || i2 == -1 then s[j].teacher
         else if j == i2 then s[i1].teacher
         else if j == i1 then s[i2].teacher
         else s[j].teacher
  {
  }

  lemma SwappedKeepsIds(s: seq<Assignment>, id1: string, id2: string)
    ensures forall j :: 0 <= j < |s| ==> Swapped(s, id1, id2)[j].id == s[j].id
  {
  }

  lemma {:induction false} FindIndexSameIds(s: seq<Assignment>, t: seq<Assignment>, id: string)
    requires |s| == |t| && forall j :: 0 <= j < |s| ==> s[j].id == t[j].id
    ensures FindIndex(s, id) == FindIndex(t, id)
  {
    if s != [] && s[0].id != id {
      FindIndexSameIds(s[1..], t[1..], id);
    }
  }

  // ---------------------------------------------------------------------------
  // Exclusions

  /** `location ? `${sessionId}_${location}` : `${sessionId}_all``; an absent location is `""`. */
  function ExclusionKey(sessionId: string, location: string): string {
    if location != "" then LocationKey(sessionId, location) else AllKey(sessionId)
  }

  function ExclusionsOf(e: Exclusions, teacher: string): set<string> {
    if teacher in e then e[teacher] else {}
  }

  /** `addTeacherExclusion` on the copied map. */
  function WithExclusion(e: Exclusions, teacher: string, key: string): (r: Exclusions)
    ensures teacher in r && key in r[teacher]
    ensures forall k :: k in r[teacher] <==> k == key || k in ExclusionsOf(e, teacher)
    ensures forall t :: t != teacher ==> (t in r <==> t in e) && (t in e ==> r[t] == e[t])
  {
    e[teacher := ExclusionsOf(e, teacher) + {key}]
  }

  /** `removeTeacherExclusion`: delete the key and drop a teacher whose set becomes empty. */
  function WithoutExclusion(e: Exclusions, teacher: string, key: string): (r: Exclusions)
    ensures teacher in r ==> key !in r[teacher] && r[teacher] != {}
    ensures teacher !in e ==> r == e
    ensures teacher in e ==> (teacher in r <==> e[teacher] - {key} != {})
    ensures forall k :: k in ExclusionsOf(r, teacher) <==> k != key && k in ExclusionsOf(e, teacher)
    ensures forall t :: t != teacher ==> (t in r <==> t in e) && (t in e ==> r[t] == e[t])
  {
    if teacher in e then
      var rest := e[teacher] - {key};
      if rest == {} then e - {teacher} else e[teacher := rest]
    else e
  }

  /** The exclusion map never holds an empty set. */
  ghost predicate NoEmptySets(e: Exclusions) {
    forall t :: t in e ==> e[t] != {}
  }

  lemma ExclusionsKeepNoEmptySets(e: Exclusions, teacher: string, key: string)
    requires NoEmptySets(e)
    ensures NoEmptySets(WithExclusion(e, teacher, key))
    ensures NoEmptySets(WithoutExclusion(e, teacher, key))
  {
  }

  /** Removing a key that was just added restores the map, when the key was new and no set was empty. */
  lemma RemoveUndoesAdd(e: Exclusions, teacher: string, key: string)
    requires NoEmptySets(e) && key !in ExclusionsOf(e, teacher)
    ensures WithoutExclusion(WithExclusion(e, teacher, key), teacher, key) == e
  {
    var r := WithoutExclusion(WithExclusion(e, teacher, key), teacher, key);
    if teacher in e {
      assert ExclusionsOf(e, teacher) + {key} - {key} == e[teacher];
      assert r == e[teacher := e[teacher]];
    } else {
      assert ExclusionsOf(e, teacher) + {key} - {key} == {};
    }
  }

  // ---------------------------------------------------------------------------
  // The hook's state

  datatype GenerateError = BlockingIssues(message: string)

  const BlockingMessage := "存在阻止生成的错误，请先修复"

  /**
   * The work of `generateAssignments` between the two `setIsLoading` calls:
   * validate, stop on any error, otherwise run the engine.
   */
  method ValidateThenGenerate(teachers: seq<Teacher>, schedules: seq<Schedule>, tasks: SpecialTasks, excl: Exclusions, h: HistoricalStats)
    returns (issues: seq<Validation.ValidationIssue>, r: Result<seq<Assignment>, GenerateError>)
    ensures issues == Validation.Validate(teachers, schedules, tasks)
    ensures (exists i :: 0 <= i < |issues| && Validation.IsError(issues[i])) <==> r.Failure?
    ensures r.Failure? ==> r.error == BlockingIssues(BlockingMessage)
    ensures r.Success? ==>
      multiset(r.value) == multiset(Scheduling.Engine(teachers, schedules, tasks, excl, h).assignments)
      && SortedBy(r.value, Scheduling.AssignmentKey)
      && forall k :: Tied(r.value, Scheduling.AssignmentKey, k)
                     == Tied(Scheduling.Engine(teachers, schedules, tasks, excl, h).assignments, Scheduling.AssignmentKey, k)
  {
    issues := Validation.ValidateSchedulingData(teachers, schedules, tasks, excl);
    if exists i :: 0 <= i < |issues| && Validation.IsError(issues[i]) {
      return issues, Failure(BlockingIssues(BlockingMessage));
    }
    var newAssignments := Scheduling.GenerateOptimalAssignments(teachers, schedules, tasks, excl, h);
    return issues, Success(newAssignments);
  }

  class SchedulingState {
    var teachers: seq<Teacher>
    var schedules: seq<Schedule>
    var assignments: seq<Assignment>
    var specialTasks: SpecialTasks
    var teacherExclusions: Exclusions
    var historicalStats: HistoricalStats
    var isLoading: bool
    var validationIssues: seq<Validation.ValidationIssue>

    /** The initial state of every `useState`. */
    constructor()
      ensures teachers == [] && schedules == [] && assignments == []
      ensures specialTasks == SpecialTasks([], []) && teacherExclusions == map[] && historicalStats == map[]
      ensures !isLoading && validationIssues == []
    {
      teachers, schedules, assignments := [], [], [];
      specialTasks := SpecialTasks([], []);
      teacherExclusions, historicalStats := map[], map[];
      isLoading, validationIssues := false, [];
    }

    /**
     * `generateAssignments`: validation runs first and its issues are kept;
     * any error stops generation before the engine runs.
     */
    method GenerateAssignments() returns (r: Result<seq<Assignment>, GenerateError>)
      modifies this
      ensures validationIssues == Validation.Validate(teachers, schedules, specialTasks)
      ensures !isLoading
      ensures teachers == old(teachers) && schedules == old(schedules) && specialTasks == old(specialTasks)
      ensures teacherExclusions == old(teacherExclusions) && historicalStats == old(historicalStats)
      ensures (exists i :: 0 <= i < |validationIssues| && Validation.IsError(validationIssues[i])) <==> r.Failure?
      ensures r.Failure? ==> r.error == BlockingIssues(BlockingMessage) && assignments == old(assignments)
      ensures r.Success? ==> (assignments == r.value
        && multiset(r.value) == multiset(Scheduling.Engine(teachers, schedules, specialTasks, teacherExclusions, historicalStats).assignments)
        && SortedBy(r.value, Scheduling.AssignmentKey)
        && (forall k :: Tied(r.value, Scheduling.AssignmentKey, k)
                        == Tied(Scheduling.Engine(teachers, schedules, specialTasks, teacherExclusions, historicalStats).assignments,
                                Scheduling.AssignmentKey, k)))
    {
      isLoading := true;
      var issues, outcome := ValidateThenGenerate(teachers, schedules, specialTasks, teacherExclusions, historicalStats);
      validationIssues := issues;
      if outcome.Success? {
        assignments := outcome.value;
      }
      isLoading := false;
      return outcome;
    }

    /** `updateAssignment`. */
    method UpdateAssignment(assignmentId: string, newTeacher: string)
      modifies this
      ensures assignments == Relabelled(old(assignments), assignmentId, newTeacher)
      ensures teachers == old(teachers) && schedules == old(schedules) && specialTasks == old(specialTasks)
      ensures teacherExclusions == old(teacherExclusions) && historicalStats == old(historicalStats)
      ensures isLoading == old(isLoading) && validationIssues == old(validationIssues)
    {
      assignments := Relabelled(assignments, assignmentId, newTeacher);
    }

    /** `swapAssignments`: copy the list, find both ids, overwrite the two entries. */
    method SwapAssignments(id1: string, id2: string)
      modifies this
      ensures assignments == Swapped(old(assignments), id1, id2)
      ensures teachers == old(teachers) && schedules == old(schedules) && specialTasks == old(specialTasks)
      ensures teacherExclusions == old(teacherExclusions) && historicalStats == old(historicalStats)
      ensures isLoading == old(isLoading) && validationIssues == old(validationIssues)
    {
      var prev := assignments;
      var newAssignments := new Assignment[|prev|](i requires 0 <= i < |prev| => prev[i]);
      assert newAssignments[..] == prev;
      var index1 := FindIndex(newAssignments[..], id1);
      var index2 := FindIndex(newAssignments[..], id2);
      if index1 != -1 && index2 != -1 {
        var temp := newAssignments[index1].teacher;
        newAssignments[index1] := Manually(newAssignments[index1], newAssignments[index2].teacher);
        newAssignments[index2] := Manually(newAssignments[index2], temp);
      }
      assignments := newAssignments[..];
    }

    /** `getConflicts`. */
    method GetConflicts() returns (conflicts: seq<ConflictDetection.Conflict>)
      ensures conflicts == ConflictDetection.Detect(assignments, teacherExclusions)
    {
      conflicts := ConflictDetection.DetectConflicts(assignments, teachers, teacherExclusions);
    }

    /** `addTeacherExclusion`; an absent location is `""`. */
    method AddTeacherExclusion(teacher: string, sessionId: string, location: string)
      modifies this
      ensures teacherExclusions == WithExclusion(old(teacherExclusions), teacher, ExclusionKey(sessionId, location))
      ensures teachers == old(teachers) && schedules == old(schedules) && specialTasks == old(specialTasks)
      ensures assignments == old(assignments) && historicalStats == old(historicalStats)
      ensures isLoading == old(isLoading) && validationIssues == old(validationIssues)
    {
      var newMap := teacherExclusions;
      var key := if location != "" then sessionId + "_" + location else sessionId + "_all";
      if teacher !in newMap {
        newMap := newMap[teacher := {}];
      }
      newMap := newMap[teacher := newMap[teacher] + {key}];
      teacherExclusions := newMap;
    }

    /** `removeTeacherExclusion`; an absent location is `""`. */
    method RemoveTeacherExclusion(teacher: string, sessionId: string, location: string)
      modifies this
      ensures teacherExclusions == WithoutExclusion(old(teacherExclusions), teacher, ExclusionKey(sessionId, location))
      ensures teachers == old(teachers) && schedules == old(schedules) && specialTasks == old(specialTasks)
      ensures assignments == old(assignments) && historicalStats == old(historicalStats)
      ensures isLoading == old(isLoading) && validationIssues == old(validationIssues)
    {
      var newMap := teacherExclusions;
      var key := if location != "" then sessionId + "_" + location else sessionId + "_all";
      if teacher in newMap {
        newMap := newMap[teacher := newMap[teacher] - {key}];
        if newMap[teacher] == {} {
          newMap := newMap - {teacher};
        }
      }
      teacherExclusions := newMap;
    }
  }
}
