/**
 * The check run before generation: missing teacher or schedule lists and
 * incomplete schedule rows are errors; duplicate teacher names and pins
 * naming unknown teachers are warnings.
 */
module Validation {
  import opened Common
  import opened Text
  import opened Domain

  datatype IssueType = Error | Warning

  datatype ValidationIssue = ValidationIssue(kind: IssueType, message: string, field: string)

  predicate IsError(i: ValidationIssue) { i.kind == Error }

  // ---------------------------------------------------------------------------
  // findDuplicateNames

  /** The names that occur more than once, in order of first occurrence. */
  function DuplicateNames(names: seq<string>): seq<string> {
    Filter(Distinct(names), Repeated(names))
  }

  function Repeated(names: seq<string>): string -> bool {
    (n: string) => Occurrences(names, n) > 1
  }

  /** `findDuplicateNames`: count into a `Map`, then keep the keys counted more than once. */
  method FindDuplicateNames(teachers: seq<Teacher>) returns (dups: seq<string>)
    ensures dups == DuplicateNames(NamesOf(teachers))
  {
    var names := NamesOf(teachers);
    var keys, counts := Tally(names);
    dups := RepeatedKeys(keys, counts, names);
  }

  /** The loop over the counted names: keep those counted more than once. */
  method RepeatedKeys(keys: seq<string>, counts: map<string, int>, ghost names: seq<string>) returns (dups: seq<string>)
    requires forall x :: x in keys ==> x in counts && counts[x] == Occurrences(names, x)
    ensures dups == Filter(keys, Repeated(names))
  {
    dups := [];
    for k := 0 to |keys|
      invariant dups == Filter(keys[..k], Repeated(names))
    {
      assert keys[..k + 1] == keys[..k] + [keys[k]];
      assert keys[k] in keys;
      dups := KeepIfRepeated(dups, keys[k], counts[keys[k]], names, keys[..k]);
    }
    assert keys[..|keys|] == keys;
  }

  /** The body of the loop over the counted names. */
  method KeepIfRepeated(dups: seq<string>, key: string, count: int, ghost names: seq<string>, ghost seen: seq<string>)
    returns (dups': seq<string>)
    requires dups == Filter(seen, Repeated(names)) && count == Occurrences(names, key)
    ensures dups' == Filter(seen + [key], Repeated(names))
  {
    FilterSnoc(seen, key, Repeated(names));
    dups' := dups;
    if count > 1 {
      dups' := dups + [key];
    }
  }

  /** Exactly the repeated names, each once, in order of first occurrence. */
  lemma DuplicateNamesExact(names: seq<string>)
    ensures forall n :: n in DuplicateNames(names) <==> Occurrences(names, n) > 1
    ensures forall i, j :: 0 <= i < j < |DuplicateNames(names)| ==> DuplicateNames(names)[i] != DuplicateNames(names)[j]
  {
    var p := Repeated(names);
    forall n ensures n in DuplicateNames(names) <==> Occurrences(names, n) > 1 {
      FilterMember(Distinct(names), p, n);
    }
    FilterDistinct(Distinct(names), p);
  }

  lemma {:induction false} FilterDistinct<T>(s: seq<T>, p: T -> bool)
    requires forall i, j :: 0 <= i < j < |s| ==> s[i] != s[j]
    ensures forall i, j :: 0 <= i < j < |Filter(s, p)| ==> Filter(s, p)[i] != Filter(s, p)[j]
  {
    if s != [] {
      var init := s[..|s| - 1];
      FilterDistinct(init, p);
      assert s[|s| - 1] !in init;
      FilterMember(init, p, s[|s| - 1]);
    }
  }

  // ---------------------------------------------------------------------------
  // validateSchedulingData

  const NoTeachersMessage := "请先导入教师名单"
  const NoSchedulesMessage := "请先导入考场安排"

  function TeacherIssues(teachers: seq<Teacher>): seq<ValidationIssue> {
    if teachers == [] then [ValidationIssue(Error, NoTeachersMessage, "teachers")]
    else
      var dups := DuplicateNames(NamesOf(teachers));
      if |dups| > 0 then [DuplicateWarning(dups)] else []
  }

  function DuplicateWarning(dups: seq<string>): ValidationIssue {
    ValidationIssue(Warning, "教师名单中存在重复姓名: " + Join(dups, ", "), "teachers")
  }

  /** `!date || !startTime || !endTime || !location`. */
  predicate Incomplete(s: Schedule) {
    s.date == "" || s.startTime == "" || s.endTime == "" || s.location == ""
  }

  function RowIssue(row: nat): ValidationIssue {
    ValidationIssue(Error, "考场安排第 " + NatToString(row) + " 行数据不完整", "schedules")
  }

  /** One error per incomplete row, naming its 1-based row number. */
  function RowIssues(schedules: seq<Schedule>): seq<ValidationIssue> {
    if schedules == [] then []
    else RowIssues(schedules[..|schedules| - 1]) + (if Incomplete(schedules[|schedules| - 1]) then [RowIssue(|schedules|)] else [])
  }

  function ScheduleIssues(schedules: seq<Schedule>): seq<ValidationIssue> {
    if schedules == [] then [ValidationIssue(Error, NoSchedulesMessage, "schedules")] else RowIssues(schedules)
  }

  function DesignatedIssue(index: nat, teacher: string): ValidationIssue {
    ValidationIssue(Warning, "指定监考任务 " + NatToString(index + 1) + " 中的教师 \"" + teacher + "\" 不在教师名单中", "designated")
  }

  function ForcedIssue(index: nat, teacher: string): ValidationIssue {
    ValidationIssue(Warning, "锁定安排 " + NatToString(index + 1) + " 中的教师 \"" + teacher + "\" 不在教师名单中", "forced")
  }

  function DesignatedIssues(tasks: seq<DesignatedTask>, known: set<string>): seq<ValidationIssue> {
    if tasks == [] then []
    else
      var t := tasks[|tasks| - 1];
      DesignatedIssues(tasks[..|tasks| - 1], known) + (if t.teacher !in known then [DesignatedIssue(|tasks| - 1, t.teacher)] else [])
  }

  function ForcedIssues(tasks: seq<ForcedTask>, known: set<string>): seq<ValidationIssue> {
    if tasks == [] then []
    else
      var t := tasks[|tasks| - 1];
      ForcedIssues(tasks[..|tasks| - 1], known) + (if t.teacher !in known then [ForcedIssue(|tasks| - 1, t.teacher)] else [])
  }

  function KnownNames(teachers: seq<Teacher>): set<string> {
    set i | 0 <= i < |teachers| :: teachers[i].name
  }

  /** The issues in the order teachers, schedules, designated tasks, forced tasks. */
  function Validate(teachers: seq<Teacher>, schedules: seq<Schedule>, tasks: SpecialTasks): seq<ValidationIssue> {
    TeacherIssues(teachers) + ScheduleIssues(schedules)
    + DesignatedIssues(tasks.designated, KnownNames(teachers)) + ForcedIssues(tasks.forced, KnownNames(teachers))
  }

  /** `validateSchedulingData`. The exclusion map is accepted and not consulted. */
  method ValidateSchedulingData(teachers: seq<Teacher>, schedules: seq<Schedule>, tasks: SpecialTasks, teacherExclusions: Exclusions)
    returns (issues: seq<ValidationIssue>)
    ensures issues == Validate(teachers, schedules, tasks)
  {
    var teacherIssues := CheckTeachers(teachers);
    var scheduleIssues := CheckSchedules(schedules);
    var teacherNames := KnownNames(teachers);
    var designated := CheckDesignated(tasks.designated, teacherNames);
    var forced := CheckForced(tasks.forced, teacherNames);
    issues := teacherIssues + scheduleIssues + designated + forced;
  }

  /** The teacher part of `validateSchedulingData`. */
  method CheckTeachers(teachers: seq<Teacher>) returns (issues: seq<ValidationIssue>)
    ensures issues == TeacherIssues(teachers)
  {
    issues := [];
    if |teachers| == 0 {
      issues := issues + [ValidationIssue(Error, NoTeachersMessage, "teachers")];
    } else {
      var duplicateNames := FindDuplicateNames(teachers);
      if |duplicateNames| > 0 {
        issues := issues + [DuplicateWarning(duplicateNames)];
      }
    }
  }

  /** The schedule part of `validateSchedulingData`. */
  method CheckSchedules(schedules: seq<Schedule>) returns (issues: seq<ValidationIssue>)
    ensures issues == ScheduleIssues(schedules)
  {
    issues := [];
    if |schedules| == 0 {
      issues := issues + [ValidationIssue(Error, NoSchedulesMessage, "schedules")];
    } else {
      var rows := CheckRows(schedules);
      issues := issues + rows;
    }
  }

  method CheckRows(schedules: seq<Schedule>) returns (issues: seq<ValidationIssue>)
    ensures issues == RowIssues(schedules)
  {
    issues := [];
    for index := 0 to |schedules|
      invariant issues == RowIssues(schedules[..index])
    {
      assert schedules[..index + 1][..index] == schedules[..index];
      var schedule := schedules[index];
      if schedule.date == "" || schedule.startTime == "" || schedule.endTime == "" || schedule.location == "" {
        issues := issues + [RowIssue(index + 1)];
      }
    }
    assert schedules[..|schedules|] == schedules;
  }

  method CheckDesignated(tasks: seq<DesignatedTask>, teacherNames: set<string>) returns (issues: seq<ValidationIssue>)
    ensures issues == DesignatedIssues(tasks, teacherNames)
  {
    issues := [];
    for index := 0 to |tasks|
      invariant issues == DesignatedIssues(tasks[..index], teacherNames)
    {
      assert tasks[..index + 1][..index] == tasks[..index];
      var task := tasks[index];
      if task.teacher !in teacherNames {
        issues := issues + [DesignatedIssue(index, task.teacher)];
      }
    }
    assert tasks[..|tasks|] == tasks;
  }

  method CheckForced(tasks: seq<ForcedTask>, teacherNames: set<string>) returns (issues: seq<ValidationIssue>)
    ensures issues == ForcedIssues(tasks, teacherNames)
  {
    issues := [];
    for index := 0 to |tasks|
      invariant issues == ForcedIssues(tasks[..index], teacherNames)
    {
      assert tasks[..index + 1][..index] == tasks[..index];
      var task := tasks[index];
      if task.teacher !in teacherNames {
        issues := issues + [ForcedIssue(index, task.teacher)];
      }
    }
    assert tasks[..|tasks|] == tasks;
  }

  // ---------------------------------------------------------------------------
  // Properties

  /**
   * An empty teacher list gives exactly one error on `teachers` and skips the
   * duplicate check; otherwise the teacher part is at most one warning, present
   * exactly when some name is repeated.
   */
  lemma TeacherIssuesShape(teachers: seq<Teacher>)
    ensures teachers == [] ==> TeacherIssues(teachers) == [ValidationIssue(Error, NoTeachersMessage, "teachers")]
    ensures teachers != [] ==>
      (|TeacherIssues(teachers)| <= 1
       && (forall i :: i in TeacherIssues(teachers) ==> i.kind == Warning && i.field == "teachers")
       && (|TeacherIssues(teachers)| == 1 <==> exists n :: Occurrences(NamesOf(teachers), n) > 1))
  {
    if teachers != [] {
      AnyDuplicate(NamesOf(teachers));
    }
  }

  lemma AnyDuplicate(names: seq<string>)
    ensures |DuplicateNames(names)| > 0 <==> exists n :: Occurrences(names, n) > 1
  {
    var dups := DuplicateNames(names);
    DuplicateNamesExact(names);
    if exists n :: Occurrences(names, n) > 1 {
      var n :| Occurrences(names, n) > 1;
      assert n in dups;
    }
    if |dups| > 0 {
      assert dups[0] in dups;
      assert Occurrences(names, dups[0]) > 1;
    }
  }

  /** Issue `x` is the one for the incomplete row at position `i`. */
  predicate RowIssueAt(schedules: seq<Schedule>, i: int, x: ValidationIssue) {
    0 <= i < |schedules| && Incomplete(schedules[i]) && x == RowIssue(i + 1)
  }

  /** Row issues: one error per incomplete schedule, naming its 1-based row. */
  lemma {:induction false} RowIssuesAre(schedules: seq<Schedule>)
    ensures forall x :: x in RowIssues(schedules) <==> exists i :: RowIssueAt(schedules, i, x)
    ensures |RowIssues(schedules)| == CountWhere(schedules, Incomplete)
  {
    if schedules != [] {
      var init := schedules[..|schedules| - 1];
      RowIssuesAre(init);
      assert schedules == init + [schedules[|schedules| - 1]];
      forall x ensures x in RowIssues(schedules) <==> exists i :: RowIssueAt(schedules, i, x) {
        RowIssueStep(init, schedules[|schedules| - 1], x);
      }
    }
  }

  lemma RowIssueStep(init: seq<Schedule>, last: Schedule, x: ValidationIssue)
    requires x in RowIssues(init) <==> exists i :: RowIssueAt(init, i, x)
    ensures x in RowIssues(init + [last]) <==> exists i :: RowIssueAt(init + [last], i, x)
  {
    var schedules := init + [last];
    var n := |schedules|;
    assert schedules[..n - 1] == init;
    var tail := if Incomplete(last) then [RowIssue(n)] else [];
    assert RowIssues(schedules) == RowIssues(init) + tail;
    if exists i :: RowIssueAt(schedules, i, x) {
      var i :| RowIssueAt(schedules, i, x);
      if i < |init| {
        assert RowIssueAt(init, i, x);
      } else {
        assert x in tail;
      }
    }
    if x in RowIssues(init) {
      var i :| RowIssueAt(init, i, x);
      assert RowIssueAt(schedules, i, x);
    } else if x in tail {
      assert RowIssueAt(schedules, n - 1, x);
    }
  }

  lemma {:induction false} TaskIssuesAreWarnings(d: seq<DesignatedTask>, f: seq<ForcedTask>, known: set<string>)
    ensures forall x :: x in DesignatedIssues(d, known) ==> x.kind == Warning && x.field == "designated"
    ensures forall x :: x in ForcedIssues(f, known) ==> x.kind == Warning && x.field == "forced"
    ensures |DesignatedIssues(d, known)| == CountWhere(d, (t: DesignatedTask) => t.teacher !in known)
    ensures |ForcedIssues(f, known)| == CountWhere(f, (t: ForcedTask) => t.teacher !in known)
  {
    if d != [] {
      TaskIssuesAreWarnings(d[..|d| - 1], f, known);
    }
    if f != [] {
      TaskIssuesAreWarnings(d, f[..|f| - 1], known);
    }
  }

  /**
   * Generation is blocked (some issue is an error) exactly when the teacher
   * list is empty, the schedule list is empty, or some schedule row is
   * incomplete; pins never block it.
   */
  lemma HasErrorExactly(teachers: seq<Teacher>, schedules: seq<Schedule>, tasks: SpecialTasks)
    ensures (exists i :: i in Validate(teachers, schedules, tasks) && IsError(i))
        <==> teachers == [] || schedules == [] || exists j :: 0 <= j < |schedules| && Incomplete(schedules[j])
  {
    var t, s := TeacherIssues(teachers), ScheduleIssues(schedules);
    var d, f := DesignatedIssues(tasks.designated, KnownNames(teachers)), ForcedIssues(tasks.forced, KnownNames(teachers));
    TeacherIssuesShape(teachers);
    TaskIssuesAreWarnings(tasks.designated, tasks.forced, KnownNames(teachers));
    RowIssuesAre(schedules);
    var all := Validate(teachers, schedules, tasks);
    assert all == t + s + d + f;
    if exists j :: 0 <= j < |schedules| && Incomplete(schedules[j]) {
      var j :| 0 <= j < |schedules| && Incomplete(schedules[j]);
      assert RowIssueAt(schedules, j, RowIssue(j + 1));
      assert RowIssue(j + 1) in s;
      assert RowIssue(j + 1) in all;
    }
    if teachers == [] {
      assert t[0] in all;
    }
    if schedules == [] {
      assert s[0] in all;
    }
    if exists i :: i in all && IsError(i) {
      var i :| i in all && IsError(i);
      assert i in t || i in s || i in d || i in f;
    }
  }
}
