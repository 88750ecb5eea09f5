/**
 * The after-the-fact conflict report over a finished assignment list: one
 * allocation conflict per marker, then, per teacher in order of first
 * appearance, the time overlaps between neighbours of the start-sorted list,
 * the rooms used more than once, and the assignments that break an exclusion.
 */
module ConflictDetection {
  import opened Common
  import opened Text
  import opened Sorting
  import opened Domain

  datatype ConflictType = Allocation | Time | Location | Rule

  datatype Severity = High | Medium | Low

  datatype Conflict = Conflict(kind: ConflictType, description: string, severity: Severity)

  /** Position of a conflict kind in the report. */
  function Rank(k: ConflictType): nat {
    match k
    case Allocation => 0
    case Time => 1
    case Location => 2
    case Rule => 3
  }

  // ---------------------------------------------------------------------------
  // Conflict records

  /** A marker assignment; the two conflict markers are `high`, the unassignable marker `medium`. */
  function AllocationConflict(a: Assignment): Conflict {
    Conflict(Allocation, a.teacher + " (考场: " + a.location + ", 时间: " + a.date + " " + a.startTime + ")",
             if Contains(a.teacher, ConflictWord) then High else Medium)
  }

  function TimeConflict(teacher: string, current: Assignment, next: Assignment): Conflict {
    Conflict(Time, teacher + " 在 " + current.date + " 有时间重叠的任务: " + current.startTime + "-" + current.endTime
                   + " (考场 " + current.location + ") 和 " + next.startTime + "-" + next.endTime
                   + " (考场 " + next.location + ")", High)
  }

  function LocationConflict(teacher: string, location: string): Conflict {
    Conflict(Location, teacher + " 被多次安排在考场 " + location, Medium)
  }

  function RuleConflict(teacher: string, a: Assignment): Conflict {
    Conflict(Rule, teacher + " 被安排在了一个已排除的场次: " + a.date + " " + a.startTime + "-" + a.endTime
                   + " (考场 " + a.location + ")", High)
  }

  /** Different rooms give different room conflicts for one teacher. */
  lemma LocationConflictInjective(teacher: string, l1: string, l2: string)
    requires LocationConflict(teacher, l1) == LocationConflict(teacher, l2)
    ensures l1 == l2
  {
    var p := teacher + " 被多次安排在考场 ";
    assert LocationConflict(teacher, l1).description == p + l1;
    assert l1 == (p + l1)[|p|..];
    assert l2 == (p + l2)[|p|..];
  }

  // ---------------------------------------------------------------------------
  // The specification of the report

  predicate MarkerAssignment(a: Assignment) { IsMarker(a.teacher) }

  function AllocationConflicts(s: seq<Assignment>): (r: seq<Conflict>)
    ensures forall c :: c in r ==> c.kind == Allocation
  {
    if s == [] then []
    else AllocationConflicts(s[..|s| - 1]) + (if IsMarker(s[|s| - 1].teacher) then [AllocationConflict(s[|s| - 1])] else [])
  }

  /** The non-marker teacher of each assignment, with repeats. */
  function TeacherNames(s: seq<Assignment>): (r: seq<string>)
    ensures forall n :: n in r ==> !IsMarker(n)
  {
    if s == [] then []
    else TeacherNames(s[..|s| - 1]) + (if IsMarker(s[|s| - 1].teacher) then [] else [s[|s| - 1].teacher])
  }

  /** The keys of `teacherSchedules`: non-marker teachers in order of first appearance. */
  function Owners(s: seq<Assignment>): seq<string> { Distinct(TeacherNames(s)) }

  function OwnedBy(name: string): Assignment -> bool {
    (a: Assignment) => !IsMarker(a.teacher) && a.teacher == name
  }

  /** `teacherSchedules.get(name)` before sorting: the teacher's assignments in input order. */
  function GroupOf(s: seq<Assignment>, name: string): seq<Assignment> { Filter(s, OwnedBy(name)) }

  /** Neighbours on one date whose first ends strictly after the second starts. */
  predicate TimeClash(current: Assignment, next: Assignment) {
    current.date == next.date && ClockMinutes(current.endTime) > ClockMinutes(next.startTime)
  }

  function TimeConflicts(teacher: string, s: seq<Assignment>): (r: seq<Conflict>)
    ensures forall c :: c in r ==> c.kind == Time
    decreases |s|
  {
    if |s| < 2 then []
    else
      TimeConflicts(teacher, s[..|s| - 1])
      + (if TimeClash(s[|s| - 2], s[|s| - 1]) then [TimeConflict(teacher, s[|s| - 2], s[|s| - 1])] else [])
  }

  /** One room conflict for each room of `rooms` that occurs more than once in `all`. */
  function RepeatedConflicts(teacher: string, rooms: seq<string>, all: seq<string>): (r: seq<Conflict>)
    ensures forall c :: c in r ==> c.kind == Location
  {
    if rooms == [] then []
    else
      var l := rooms[|rooms| - 1];
      RepeatedConflicts(teacher, rooms[..|rooms| - 1], all) + (if Occurrences(all, l) > 1 then [LocationConflict(teacher, l)] else [])
  }

  function LocationConflicts(teacher: string, s: seq<Assignment>): seq<Conflict> {
    RepeatedConflicts(teacher, Distinct(LocationsOf(s)), LocationsOf(s))
  }

  predicate Excluded(excl: Exclusions, teacher: string, a: Assignment) {
    ExcludedFrom(excl, teacher, a.date, a.startTime, a.endTime, a.location)
  }

  function RuleConflicts(teacher: string, s: seq<Assignment>, excl: Exclusions): (r: seq<Conflict>)
    ensures forall c :: c in r ==> c.kind == Rule
  {
    if s == [] then []
    else RuleConflicts(teacher, s[..|s| - 1], excl) + (if Excluded(excl, teacher, s[|s| - 1]) then [RuleConflict(teacher, s[|s| - 1])] else [])
  }

  /** The conflicts of one teacher, from the group sorted by start. */
  function TeacherConflicts(teacher: string, group: seq<Assignment>, excl: Exclusions): seq<Conflict> {
    var schedule := SortBy(group, StartInstant);
    TimeConflicts(teacher, schedule) + LocationConflicts(teacher, schedule) + RuleConflicts(teacher, schedule, excl)
  }

  function PerTeacher(names: seq<string>, s: seq<Assignment>, excl: Exclusions): (r: seq<Conflict>)
    ensures forall c :: c in r ==> c.kind != Allocation
  {
    if names == [] then []
    else
      var n := names[|names| - 1];
      PerTeacherKinds(n, GroupOf(s, n), excl);
      PerTeacher(names[..|names| - 1], s, excl) + TeacherConflicts(n, GroupOf(s, n), excl)
  }

  lemma PerTeacherKinds(n: string, group: seq<Assignment>, excl: Exclusions)
    ensures forall c :: c in TeacherConflicts(n, group, excl) ==> c.kind != Allocation
  {
  }

  /** The whole report. */
  function Detect(s: seq<Assignment>, excl: Exclusions): seq<Conflict> {
    AllocationConflicts(s) + PerTeacher(Owners(s), s, excl)
  }

  // ---------------------------------------------------------------------------
  // detectConflicts

  /**
   * `detectConflicts`. The list of teachers is accepted and not consulted.
   */
  method DetectConflicts(assignments: seq<Assignment>, teachers: seq<Teacher>, teacherExclusions: Exclusions)
    returns (conflicts: seq<Conflict>)
    ensures conflicts == Detect(assignments, teacherExclusions)
  {
    var allocations := CollectAllocationConflicts(assignments);
    var names, groups := GroupByTeacher(assignments);
    var perTeacher: seq<Conflict> := [];
    for i := 0 to |names|
      invariant perTeacher == PerTeacher(names[..i], assignments, teacherExclusions)
    {
      var teacher := names[i];
      PerTeacherSnoc(names, i, assignments, teacherExclusions);
      var found := CheckTeacher(teacher, groups[teacher], teacherExclusions);
      perTeacher := perTeacher + found;
    }
    assert names[..|names|] == names;
    conflicts := allocations + perTeacher;
  }

  lemma PerTeacherSnoc(names: seq<string>, i: nat, s: seq<Assignment>, excl: Exclusions)
    requires i < |names|
    ensures PerTeacher(names[..i + 1], s, excl) == PerTeacher(names[..i], s, excl) + TeacherConflicts(names[i], GroupOf(s, names[i]), excl)
  {
    assert names[..i + 1][..i] == names[..i];
  }

  /** The first `forEach`: one allocation conflict per marker. */
  method CollectAllocationConflicts(assignments: seq<Assignment>) returns (conflicts: seq<Conflict>)
    ensures conflicts == AllocationConflicts(assignments)
  {
    conflicts := [];
    for k := 0 to |assignments|
      invariant conflicts == AllocationConflicts(assignments[..k])
    {
      assert assignments[..k + 1][..k] == assignments[..k];
      var a := assignments[k];
      if StartsWith(a.teacher, MarkerPrefix) {
        var severity := if Contains(a.teacher, ConflictWord) then High else Medium;
        conflicts := conflicts + [Conflict(Allocation, a.teacher + " (考场: " + a.location + ", 时间: " + a.date + " " + a.startTime + ")", severity)];
      }
    }
    assert assignments[..|assignments|] == assignments;
  }

  /** What the second `forEach` has built after reading `seen`. */
  ghost predicate GroupsOf(names: seq<string>, groups: map<string, seq<Assignment>>, seen: seq<Assignment>) {
    names == Owners(seen)
    && (forall n :: n in groups <==> n in names)
    && forall n :: n in groups ==> groups[n] == GroupOf(seen, n)
  }

  /** The second `forEach`: `teacherSchedules`, its keys in insertion order and its lists. */
  method GroupByTeacher(assignments: seq<Assignment>) returns (names: seq<string>, groups: map<string, seq<Assignment>>)
    ensures names == Owners(assignments)
    ensures forall n :: n in groups <==> n in names
    ensures forall n :: n in groups ==> groups[n] == GroupOf(assignments, n)
  {
    names, groups := [], map[];
    for k := 0 to |assignments|
      invariant GroupsOf(names, groups, assignments[..k])
    {
      assert assignments[..k + 1] == assignments[..k] + [assignments[k]];
      names, groups := AddToGroup(names, groups, assignments[..k], assignments[k]);
    }
    assert assignments[..|assignments|] == assignments;
  }

  /** The body of the second `forEach`. */
  method AddToGroup(names: seq<string>, groups: map<string, seq<Assignment>>, ghost seen: seq<Assignment>, a: Assignment)
    returns (names': seq<string>, groups': map<string, seq<Assignment>>)
    requires GroupsOf(names, groups, seen)
    ensures GroupsOf(names', groups', seen + [a])
  {
    names', groups' := names, groups;
    var next := seen + [a];
    TeacherNamesSnoc(seen, a);
    if !StartsWith(a.teacher, MarkerPrefix) {
      assert TeacherNames(next) == TeacherNames(seen) + [a.teacher];
      DistinctAppendOne(TeacherNames(seen), a.teacher);
      assert a.teacher in groups <==> a.teacher in TeacherNames(seen);
      var current := [];
      if a.teacher !in groups {
        AbsentGroup(seen, a.teacher);
        names' := names + [a.teacher];
      } else {
        current := groups[a.teacher];
      }
      groups' := groups[a.teacher := current + [a]];
    } else {
      assert TeacherNames(next) == TeacherNames(seen);
    }
    assert names' == Owners(next);
    assert forall n :: n in groups' <==> n in groups || (n == a.teacher && !IsMarker(n));
    forall n | n in groups' ensures groups'[n] == GroupOf(next, n) {
      GroupOfSnoc(seen, a, n);
    }
  }

  lemma TeacherNamesSnoc(s: seq<Assignment>, a: Assignment)
    ensures TeacherNames(s + [a]) == TeacherNames(s) + (if IsMarker(a.teacher) then [] else [a.teacher])
  {
    assert (s + [a])[..|s|] == s;
  }

  lemma GroupOfSnoc(s: seq<Assignment>, a: Assignment, n: string)
    ensures GroupOf(s + [a], n) == GroupOf(s, n) + (if OwnedBy(n)(a) then [a] else [])
  {
    assert (s + [a])[..|s|] == s;
  }

  /** A teacher not yet among the names has an empty group. */
  lemma AbsentGroup(s: seq<Assignment>, n: string)
    requires n !in TeacherNames(s)
    ensures GroupOf(s, n) == []
  {
    forall a | a in s ensures !OwnedBy(n)(a) {
      if OwnedBy(n)(a) {
        var i :| 0 <= i < |s| && s[i] == a;
        TeacherNamesMember(s, i);
      }
    }
    FilterNone(s, OwnedBy(n));
  }

  lemma {:induction false} TeacherNamesMember(s: seq<Assignment>, i: nat)
    requires i < |s| && !IsMarker(s[i].teacher)
    ensures s[i].teacher in TeacherNames(s)
  {
    if i < |s| - 1 {
      TeacherNamesMember(s[..|s| - 1], i);
    }
  }

  /** The three checks of one teacher in `teacherSchedules.forEach`. */
  method CheckTeacher(teacher: string, group: seq<Assignment>, excl: Exclusions) returns (found: seq<Conflict>)
    ensures found == TeacherConflicts(teacher, group, excl)
  {
    var schedule := SortBy(group, StartInstant);
    var times := CheckTimes(teacher, schedule);
    var rooms := CheckLocations(teacher, schedule);
    var rules := CheckRules(teacher, schedule, excl);
    found := times + rooms + rules;
  }

  /** The overlap loop over neighbouring entries. */
  method CheckTimes(teacher: string, schedule: seq<Assignment>) returns (found: seq<Conflict>)
    ensures found == TimeConflicts(teacher, schedule)
  {
    found := [];
    if |schedule| > 1 {
      for i := 0 to |schedule| - 1
        invariant found == TimeConflicts(teacher, schedule[..i + 1])
      {
        var current, next := schedule[i], schedule[i + 1];
        TimeConflictsPrefix(teacher, schedule, i);
        if current.date == next.date && ClockMinutes(current.endTime) > ClockMinutes(next.startTime) {
          found := found + [TimeConflict(teacher, current, next)];
        }
      }
      assert schedule[..|schedule|] == schedule;
    }
  }

  lemma TimeConflictsPrefix(teacher: string, s: seq<Assignment>, i: nat)
    requires i + 1 < |s|
    ensures TimeConflicts(teacher, s[..i + 2])
      == TimeConflicts(teacher, s[..i + 1]) + (if TimeClash(s[i], s[i + 1]) then [TimeConflict(teacher, s[i], s[i + 1])] else [])
  {
    var prefix := s[..i + 2];
    assert prefix[..|prefix| - 1] == s[..i + 1];
    assert prefix[|prefix| - 2] == s[i] && prefix[|prefix| - 1] == s[i + 1];
  }

  /** `locationMap`: counts per room in order of first use, then one conflict per repeated room. */
  method CheckLocations(teacher: string, schedule: seq<Assignment>) returns (found: seq<Conflict>)
    ensures found == LocationConflicts(teacher, schedule)
  {
    var rooms, counts := Tally(LocationsOf(schedule));
    found := [];
    for k := 0 to |rooms|
      invariant found == RepeatedConflicts(teacher, rooms[..k], LocationsOf(schedule))
    {
      assert rooms[..k + 1][..k] == rooms[..k];
      if counts[rooms[k]] > 1 {
        found := found + [LocationConflict(teacher, rooms[k])];
      }
    }
    assert rooms[..|rooms|] == rooms;
  }

  /** The exclusion check, run only when the teacher has an exclusion set. */
  method CheckRules(teacher: string, schedule: seq<Assignment>, excl: Exclusions) returns (found: seq<Conflict>)
    ensures found == RuleConflicts(teacher, schedule, excl)
  {
    found := [];
    if teacher in excl {
      var exclusions := excl[teacher];
      for k := 0 to |schedule|
        invariant found == RuleConflicts(teacher, schedule[..k], excl)
      {
        assert schedule[..k + 1][..k] == schedule[..k];
        var a := schedule[k];
        var sessionId := a.date + "_" + a.startTime + "_" + a.endTime;
        if sessionId + "_all" in exclusions || sessionId + "_" + a.location in exclusions {
          found := found + [RuleConflict(teacher, a)];
        }
      }
      assert schedule[..|schedule|] == schedule;
    } else {
      NoRulesWithoutSet(teacher, schedule, excl);
    }
  }

  lemma {:induction false} NoRulesWithoutSet(teacher: string, s: seq<Assignment>, excl: Exclusions)
    requires teacher !in excl
    ensures RuleConflicts(teacher, s, excl) == []
  {
    if s != [] {
      NoRulesWithoutSet(teacher, s[..|s| - 1], excl);
    }
  }

  // ---------------------------------------------------------------------------
  // Properties of the report

  /**
   * The report opens with one allocation conflict per marker assignment, in
   * input order, and nothing after them is an allocation conflict; an empty
   * list gives an empty report.
   */
  lemma DetectAllocationsFirst(s: seq<Assignment>, excl: Exclusions)
    ensures var d := Detect(s, excl);
      var markers := Filter(s, MarkerAssignment);
      |markers| <= |d|
      && (forall i :: 0 <= i < |markers| ==> d[i] == AllocationConflict(markers[i]))
      && (forall i :: |markers| <= i < |d| ==> d[i].kind != Allocation)
      && (s == [] ==> d == [])
  {
    AllocationConflictsAre(s);
    NoAllocationAfter(AllocationConflicts(s), PerTeacher(Owners(s), s, excl));
  }

  lemma NoAllocationAfter(a: seq<Conflict>, p: seq<Conflict>)
    requires forall c :: c in p ==> c.kind != Allocation
    ensures forall i :: |a| <= i < |a + p| ==> (a + p)[i].kind != Allocation
  {
    forall i | |a| <= i < |a + p| ensures (a + p)[i].kind != Allocation {
      assert (a + p)[i] == p[i - |a|];
    }
  }

  lemma {:induction false} AllocationConflictsAre(s: seq<Assignment>)
    ensures |AllocationConflicts(s)| == |Filter(s, MarkerAssignment)|
    ensures forall i :: 0 <= i < |AllocationConflicts(s)| ==>
      AllocationConflicts(s)[i] == AllocationConflict(Filter(s, MarkerAssignment)[i])
  {
    if s != [] {
      var init, last := s[..|s| - 1], s[|s| - 1];
      AllocationConflictsAre(init);
      var a, m := AllocationConflicts(init), Filter(init, MarkerAssignment);
      if IsMarker(last.teacher) {
        assert AllocationConflicts(s) == a + [AllocationConflict(last)];
        assert Filter(s, MarkerAssignment) == m + [last];
      } else {
        assert AllocationConflicts(s) == a + [];
        assert Filter(s, MarkerAssignment) == m + [];
      }
    }
  }

  /** Severity of a marker's conflict: the two conflict markers are `high`, the unassignable marker `medium`. */
  lemma AllocationSeverities(name: string, a: Assignment)
    requires a.teacher == LockConflictMarker(name) || a.teacher == DesignatedConflictMarker(name) || a.teacher == UnassignableMarker
    ensures AllocationConflict(a).severity == (if a.teacher == UnassignableMarker then Medium else High)
  {
    if a.teacher == UnassignableMarker {
      NotContainsUnassignable();
    } else if a.teacher == LockConflictMarker(name) {
      LockMarkerHasWord(name);
    } else {
      DesignatedMarkerHasWord(name);
    }
  }

  lemma LockMarkerHasWord(name: string)
    ensures Contains(LockConflictMarker(name), ConflictWord)
  {
    ContainsAt(LockConflictMarker(name), ConflictWord, 4);
  }

  lemma DesignatedMarkerHasWord(name: string)
    ensures Contains(DesignatedConflictMarker(name), ConflictWord)
  {
    ContainsAt(DesignatedConflictMarker(name), ConflictWord, 4);
  }

  /** The per-teacher part covers each non-marker teacher once, in order of first appearance, and no marker. */
  lemma OwnersAreTeachers(s: seq<Assignment>)
    ensures forall n :: n in Owners(s) <==> exists i :: 0 <= i < |s| && s[i].teacher == n && !IsMarker(n)
    ensures forall i, j :: 0 <= i < j < |Owners(s)| ==> Owners(s)[i] != Owners(s)[j]
  {
    forall n ensures n in TeacherNames(s) <==> exists i :: 0 <= i < |s| && s[i].teacher == n && !IsMarker(n) {
      if n in TeacherNames(s) {
        TeacherNamesFrom(s, n);
      }
      if exists i :: 0 <= i < |s| && s[i].teacher == n && !IsMarker(n) {
        var i :| 0 <= i < |s| && s[i].teacher == n && !IsMarker(n);
        TeacherNamesMember(s, i);
      }
    }
  }

  lemma {:induction false} TeacherNamesFrom(s: seq<Assignment>, n: string)
    requires n in TeacherNames(s)
    ensures exists i :: 0 <= i < |s| && s[i].teacher == n
  {
    if n in TeacherNames(s[..|s| - 1]) {
      TeacherNamesFrom(s[..|s| - 1], n);
      var i :| 0 <= i < |s| - 1 && s[..|s| - 1][i].teacher == n;
      assert s[i].teacher == n;
    } else {
      assert s[|s| - 1].teacher == n;
    }
  }

  /**
   * Time conflicts are reported exactly for the neighbouring pairs of the
   * sorted list that clash; no other pair is ever reported.
   */
  lemma {:induction false} TimeConflictsAdjacent(teacher: string, s: seq<Assignment>)
    ensures forall c :: c in TimeConflicts(teacher, s) <==> exists i :: ClashAt(teacher, s, i, c)
    decreases |s|
  {
    if |s| >= 2 {
      var init := s[..|s| - 1];
      TimeConflictsAdjacent(teacher, init);
      forall c ensures c in TimeConflicts(teacher, s) <==> exists i :: ClashAt(teacher, s, i, c) {
        ClashStep(teacher, s, init, c);
      }
    }
  }

  /** One conflict, given the property for the list without its last entry. */
  lemma ClashStep(teacher: string, s: seq<Assignment>, init: seq<Assignment>, c: Conflict)
    requires |s| >= 2 && init == s[..|s| - 1]
    requires c in TimeConflicts(teacher, init) <==> exists i :: ClashAt(teacher, init, i, c)
    ensures c in TimeConflicts(teacher, s) <==> exists i :: ClashAt(teacher, s, i, c)
  {
    var last := if TimeClash(s[|s| - 2], s[|s| - 1]) then [TimeConflict(teacher, s[|s| - 2], s[|s| - 1])] else [];
    assert TimeConflicts(teacher, s) == TimeConflicts(teacher, init) + last;
    if c in TimeConflicts(teacher, init) {
      var i :| ClashAt(teacher, init, i, c);
      ClashAtPrefix(teacher, s, i, c);
    } else if c in last {
      assert ClashAt(teacher, s, |s| - 2, c);
    }
    if exists i :: ClashAt(teacher, s, i, c) {
      var i :| ClashAt(teacher, s, i, c);
      if i < |s| - 2 {
        ClashAtPrefix(teacher, s, i, c);
      } else {
        assert c in last;
      }
    }
  }

  /** Conflict `c` is the one for the clashing neighbours at `i` and `i + 1`. */
  predicate ClashAt(teacher: string, s: seq<Assignment>, i: int, c: Conflict) {
    0 <= i < |s| - 1 && TimeClash(s[i], s[i + 1]) && c == TimeConflict(teacher, s[i], s[i + 1])
  }

  lemma ClashAtPrefix(teacher: string, s: seq<Assignment>, i: int, c: Conflict)
    requires 0 <= i < |s| - 2
    ensures ClashAt(teacher, s[..|s| - 1], i, c) <==> ClashAt(teacher, s, i, c)
  {
    assert s[..|s| - 1][i] == s[i] && s[..|s| - 1][i + 1] == s[i + 1];
  }

  /** Touching times (one ends when the next starts) never clash. */
  lemma TouchingNeverClashes(current: Assignment, next: Assignment)
    requires current.endTime == next.startTime
    ensures !TimeClash(current, next)
  {
  }

  /** Exactly one room conflict is reported for each room that occurs more than once, and for no other. */
  lemma LocationConflictsExact(teacher: string, s: seq<Assignment>)
    ensures forall l :: LocationConflict(teacher, l) in LocationConflicts(teacher, s) <==> Occurrences(LocationsOf(s), l) > 1
    ensures forall i, j :: 0 <= i < j < |LocationConflicts(teacher, s)| ==> LocationConflicts(teacher, s)[i] != LocationConflicts(teacher, s)[j]
  {
    var all := LocationsOf(s);
    RepeatedConflictsExact(teacher, Distinct(all), all);
    forall l ensures LocationConflict(teacher, l) in LocationConflicts(teacher, s) <==> Occurrences(all, l) > 1 {
      if Occurrences(all, l) > 1 {
        assert l in all;
      }
    }
  }

  lemma {:induction false} RepeatedConflictsExact(teacher: string, rooms: seq<string>, all: seq<string>)
    requires forall i, j :: 0 <= i < j < |rooms| ==> rooms[i] != rooms[j]
    ensures forall l :: LocationConflict(teacher, l) in RepeatedConflicts(teacher, rooms, all) <==> l in rooms && Occurrences(all, l) > 1
    ensures forall c :: c in RepeatedConflicts(teacher, rooms, all) ==> exists l :: l in rooms && c == LocationConflict(teacher, l)
    ensures forall i, j :: 0 <= i < j < |RepeatedConflicts(teacher, rooms, all)| ==>
      RepeatedConflicts(teacher, rooms, all)[i] != RepeatedConflicts(teacher, rooms, all)[j]
  {
    if rooms != [] {
      var init, l := rooms[..|rooms| - 1], rooms[|rooms| - 1];
      assert rooms == init + [l];
      RepeatedConflictsExact(teacher, init, all);
      var prev := RepeatedConflicts(teacher, init, all);
      forall m ensures LocationConflict(teacher, m) in RepeatedConflicts(teacher, rooms, all) <==> m in rooms && Occurrences(all, m) > 1 {
        if LocationConflict(teacher, m) == LocationConflict(teacher, l) {
          LocationConflictInjective(teacher, m, l);
        }
      }
      if Occurrences(all, l) > 1 {
        forall c | c in prev ensures c != LocationConflict(teacher, l) {
          var m :| m in init && c == LocationConflict(teacher, m);
          if c == LocationConflict(teacher, l) {
            LocationConflictInjective(teacher, m, l);
          }
        }
      }
    }
  }

  /** One rule conflict per assignment that falls under the teacher's exclusions, in list order. */
  lemma {:induction false} RuleConflictsAre(teacher: string, s: seq<Assignment>, excl: Exclusions)
    ensures var hits := Filter(s, (a: Assignment) => Excluded(excl, teacher, a));
      |RuleConflicts(teacher, s, excl)| == |hits|
      && forall i :: 0 <= i < |hits| ==> RuleConflicts(teacher, s, excl)[i] == RuleConflict(teacher, hits[i])
  {
    if s != [] {
      RuleConflictsAre(teacher, s[..|s| - 1], excl);
    }
  }

  /** Within one teacher, time conflicts come first, then room conflicts, then rule conflicts. */
  lemma TeacherConflictsOrder(teacher: string, group: seq<Assignment>, excl: Exclusions)
    ensures forall i, j :: 0 <= i < j < |TeacherConflicts(teacher, group, excl)| ==>
      Rank(TeacherConflicts(teacher, group, excl)[i].kind) <= Rank(TeacherConflicts(teacher, group, excl)[j].kind)
    ensures forall c :: c in TeacherConflicts(teacher, group, excl) ==> Rank(c.kind) >= 1
  {
    var schedule := SortBy(group, StartInstant);
    RanksInOrder(TimeConflicts(teacher, schedule), LocationConflicts(teacher, schedule), RuleConflicts(teacher, schedule, excl));
  }

  lemma RanksInOrder(t: seq<Conflict>, l: seq<Conflict>, r: seq<Conflict>)
    requires forall c :: c in t ==> c.kind == Time
    requires forall c :: c in l ==> c.kind == Location
    requires forall c :: c in r ==> c.kind == Rule
    ensures forall i, j :: 0 <= i < j < |t + l + r| ==> Rank((t + l + r)[i].kind) <= Rank((t + l + r)[j].kind)
    ensures forall c :: c in t + l + r ==> Rank(c.kind) >= 1
  {
    var all := t + l + r;
    forall i | 0 <= i < |all| ensures Rank(all[i].kind) == (if i < |t| then 1 else if i < |t| + |l| then 2 else 3) {
      if i < |t| {
        assert all[i] == t[i];
      } else if i < |t| + |l| {
        assert all[i] == l[i - |t|];
      } else {
        assert all[i] == r[i - |t| - |l|];
      }
    }
  }
}
