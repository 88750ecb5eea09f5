/**
 * The updaters of the rules panel: they rebuild the special-task lists
 * (designated and forced pins) and turn the exclusion checkboxes into
 * add/remove calls. The checkboxes and selects the source reads from the
 * page are parameters here, each with its `data-*` attributes already read
 * (an absent attribute is `""`).
 */
module RulesPanel {
  import opened Common
  import opened Domain
  import App
  import SchedulingHook

  // ---------------------------------------------------------------------------
  // Filters by teacher, session and position

  function OfTeacher(name: string): DesignatedTask -> bool { (t: DesignatedTask) => t.teacher == name }

  function NotOfTeacher(name: string): DesignatedTask -> bool { (t: DesignatedTask) => t.teacher != name }

  function OfSession(id: string): ForcedTask -> bool { (t: ForcedTask) => t.sessionId == id }

  function NotOfSession(id: string): ForcedTask -> bool { (t: ForcedTask) => t.sessionId != id }

  /** Filtering by a narrower condition after a wider one is filtering by the narrower one. */
  lemma {:induction false} FilterNarrow<T>(s: seq<T>, p: T -> bool, q: T -> bool)
    requires forall x :: q(x) ==> p(x)
    ensures Filter(Filter(s, p), q) == Filter(s, q)
  {
    if s != [] {
      var init, last := s[..|s| - 1], s[|s| - 1];
      FilterNarrow(init, p, q);
      FilterAppend(Filter(init, p), if p(last) then [last] else [], q);
      if p(last) { FilterSingle(last, q); } else { assert !q(last); }
    }
  }

  /** Whatever two disjoint conditions keep of `s`, the second finds nothing in the first's result. */
  lemma FilterDisjoint<T>(s: seq<T>, p: T -> bool, q: T -> bool)
    requires forall x :: q(x) ==> !p(x)
    ensures Filter(Filter(s, p), q) == []
  {
    FilterNone(Filter(s, p), q);
  }

  /** `list.filter((_, i) => i !== index)`. */
  function DropIndex<T>(s: seq<T>, index: int): seq<T> {
    if s == [] then [] else DropIndex(s[..|s| - 1], index) + (if |s| - 1 != index then [s[|s| - 1]] else [])
  }

  /** Dropping a position removes exactly that entry and keeps the others in order; any other index changes nothing. */
  lemma DropIndexSpec<T>(s: seq<T>, index: int)
    ensures 0 <= index < |s| ==> DropIndex(s, index) == s[..index] + s[index + 1..]
    ensures !(0 <= index < |s|) ==> DropIndex(s, index) == s
  {
    if 0 <= index < |s| { DropIndexInside(s, index); } else { DropIndexOutside(s, index); }
  }

  lemma {:induction false} DropIndexOutside<T>(s: seq<T>, index: int)
    requires !(0 <= index < |s|)
    ensures DropIndex(s, index) == s
  {
    if s != [] {
      var init, last := s[..|s| - 1], s[|s| - 1];
      DropIndexOutside(init, index);
      assert DropIndex(s, index) == init + [last];
      assert s == init + [last];
    }
  }

  lemma {:induction false} DropIndexInside<T>(s: seq<T>, index: int)
    requires 0 <= index < |s|
    ensures DropIndex(s, index) == s[..index] + s[index + 1..]
  {
    var init, last := s[..|s| - 1], s[|s| - 1];
    if index == |s| - 1 {
      DropIndexOutside(init, index);
      assert DropIndex(s, index) == init;
      assert s[index + 1..] == [];
      assert s[..index] == init;
    } else {
      DropIndexInside(init, index);
      var front, back := init[..index], init[index + 1..];
      assert DropIndex(s, index) == (front + back) + [last];
      assert s[..index] == front;
      assert s[index + 1..] == back + [last];
      AppendAssoc(front, back, [last]);
    }
  }

  // ---------------------------------------------------------------------------
  // Designated tasks

  /** A checked `.designated-checkbox`: its `data-date`, `data-session-id` and `data-location`. */
  datatype CheckedCell = CheckedCell(date: string, sessionId: string, location: string)

  /** `newTasks` of `addDesignatedTask`. */
  function NewDesignated(teacher: string, cells: seq<CheckedCell>): (r: seq<DesignatedTask>)
    ensures |r| == |cells|
    ensures forall i :: 0 <= i < |cells| ==> r[i] == DesignatedTask(teacher, cells[i].date, cells[i].sessionId, cells[i].location)
  {
    seq(|cells|, i requires 0 <= i < |cells| => DesignatedTask(teacher, cells[i].date, cells[i].sessionId, cells[i].location))
  }

  /** `addDesignatedTask`, returning what it hands to `onUpdateSpecialTasks` (`None` when it returns early). */
  function AddDesignatedTask(tasks: SpecialTasks, selected: string, cells: seq<CheckedCell>): Option<SpecialTasks> {
    if selected == "" then None
    else Some(tasks.(designated := Filter(tasks.designated, NotOfTeacher(selected)) + NewDesignated(selected, cells)))
  }

  /**
   * Without a selected teacher nothing is sent. Otherwise the forced list
   * is untouched, the selected teacher's tasks become exactly the checked
   * cells in page order, and every other teacher keeps their own tasks in
   * their old order.
   */
  lemma AddDesignatedReplaces(tasks: SpecialTasks, selected: string, cells: seq<CheckedCell>, other: string)
    requires other != selected
    ensures selected == "" <==> AddDesignatedTask(tasks, selected, cells) == None
    ensures var r := AddDesignatedTask(tasks, selected, cells);
      r.Some? ==>
        r.value.forced == tasks.forced
        && Filter(r.value.designated, OfTeacher(selected)) == NewDesignated(selected, cells)
        && Filter(r.value.designated, OfTeacher(other)) == Filter(tasks.designated, OfTeacher(other))
  {
    if selected != "" {
      var kept := Filter(tasks.designated, NotOfTeacher(selected));
      var added := NewDesignated(selected, cells);
      FilterAppend(kept, added, OfTeacher(selected));
      FilterDisjoint(tasks.designated, NotOfTeacher(selected), OfTeacher(selected));
      FilterAll(added, OfTeacher(selected));
      FilterAppend(kept, added, OfTeacher(other));
      FilterNarrow(tasks.designated, NotOfTeacher(selected), OfTeacher(other));
      FilterNone(added, OfTeacher(other));
    }
  }

  /** Pressing the add button twice with the same cells checked sends the same lists as pressing it once. */
  lemma AddDesignatedIdempotent(tasks: SpecialTasks, selected: string, cells: seq<CheckedCell>)
    requires selected != ""
    ensures var once := AddDesignatedTask(tasks, selected, cells).value;
      AddDesignatedTask(once, selected, cells) == Some(once)
  {
    var kept := Filter(tasks.designated, NotOfTeacher(selected));
    var added := NewDesignated(selected, cells);
    FilterAppend(kept, added, NotOfTeacher(selected));
    FilterNarrow(tasks.designated, NotOfTeacher(selected), NotOfTeacher(selected));
    FilterNone(added, NotOfTeacher(selected));
    assert Filter(kept + added, NotOfTeacher(selected)) == kept;
  }

  /** `removeDesignatedTask`. */
  function RemoveDesignatedTask(tasks: SpecialTasks, index: int): SpecialTasks {
    tasks.(designated := DropIndex(tasks.designated, index))
  }

  /** The designated entry at `index` is dropped and the rest keep their order; the forced list is untouched. */
  lemma RemoveDesignatedDrops(tasks: SpecialTasks, index: int)
    requires 0 <= index < |tasks.designated|
    ensures var r := RemoveDesignatedTask(tasks, index);
      r.forced == tasks.forced
      && r.designated == tasks.designated[..index] + tasks.designated[index + 1..]
  {
    DropIndexSpec(tasks.designated, index);
  }

  // ---------------------------------------------------------------------------
  // Forced tasks

  /** A `.forced-teacher-select`: its `data-location` and its selected value. */
  datatype TeacherSelect = TeacherSelect(location: string, teacher: string)

  /** `task.teacher && task.location`. */
  function Chosen(): ForcedTask -> bool { (t: ForcedTask) => t.teacher != "" && t.location != "" }

  /** The selects read as pins of `sessionId`. */
  function MapSelects(sessionId: string, selects: seq<TeacherSelect>): (r: seq<ForcedTask>)
    ensures |r| == |selects|
    ensures forall i :: 0 <= i < |selects| ==> r[i] == ForcedTask(sessionId, selects[i].location, selects[i].teacher)
  {
    seq(|selects|, i requires 0 <= i < |selects| => ForcedTask(sessionId, selects[i].location, selects[i].teacher))
  }

  /** `newForcedTasks` of `setForcedAssignments`. */
  function NewForced(sessionId: string, selects: seq<TeacherSelect>): seq<ForcedTask> {
    Filter(MapSelects(sessionId, selects), Chosen())
  }

  /** `sessions.find(s => s.id === id)` found something. */
  predicate KnownSession(sessions: seq<App.Session>, id: string) {
    exists s :: s in sessions && s.id == id
  }

  /** `setForcedAssignments`, returning what it hands to `onUpdateSpecialTasks` (`None` when it returns early). */
  function SetForcedAssignments(tasks: SpecialTasks, sessions: seq<App.Session>, selected: string, selects: seq<TeacherSelect>): Option<SpecialTasks> {
    if selected == "" || !KnownSession(sessions, selected) then None
    else Some(tasks.(forced := Filter(tasks.forced, NotOfSession(selected)) + NewForced(selected, selects)))
  }

  /**
   * Nothing is sent without a selected, known session. Otherwise the
   * designated list is untouched, the session's pins become exactly the
   * selects that name both a teacher and a room, and every other session
   * keeps its pins in their old order.
   */
  lemma SetForcedReplaces(tasks: SpecialTasks, sessions: seq<App.Session>, selected: string, selects: seq<TeacherSelect>, other: string)
    requires other != selected
    ensures selected == "" || !KnownSession(sessions, selected) <==> SetForcedAssignments(tasks, sessions, selected, selects) == None
    ensures var r := SetForcedAssignments(tasks, sessions, selected, selects);
      r.Some? ==>
        r.value.designated == tasks.designated
        && Filter(r.value.forced, OfSession(selected)) == NewForced(selected, selects)
        && Filter(r.value.forced, OfSession(other)) == Filter(tasks.forced, OfSession(other))
        && forall t :: t in Filter(r.value.forced, OfSession(selected)) ==> t.teacher != "" && t.location != ""
  {
    if selected != "" && KnownSession(sessions, selected) {
      var kept := Filter(tasks.forced, NotOfSession(selected));
      var added := NewForced(selected, selects);
      var mapped := MapSelects(selected, selects);
      forall t | t in added ensures t.sessionId == selected && Chosen()(t) {
        FilterMember(mapped, Chosen(), t);
      }
      FilterAppend(kept, added, OfSession(selected));
      FilterDisjoint(tasks.forced, NotOfSession(selected), OfSession(selected));
      FilterAll(added, OfSession(selected));
      FilterAppend(kept, added, OfSession(other));
      FilterNarrow(tasks.forced, NotOfSession(selected), OfSession(other));
      FilterNone(added, OfSession(other));
    }
  }

  /** `removeForcedTask`. */
  function RemoveForcedTask(tasks: SpecialTasks, index: int): SpecialTasks {
    tasks.(forced := DropIndex(tasks.forced, index))
  }

  /** The forced entry at `index` is dropped and the rest keep their order; the designated list is untouched. */
  lemma RemoveForcedDrops(tasks: SpecialTasks, index: int)
    requires 0 <= index < |tasks.forced|
    ensures var r := RemoveForcedTask(tasks, index);
      r.designated == tasks.designated
      && r.forced == tasks.forced[..index] + tasks.forced[index + 1..]
  {
    DropIndexSpec(tasks.forced, index);
  }

  // ---------------------------------------------------------------------------
  // Exclusions and sections

  /**
   * `handleExclusionChange` followed by the store's add or remove call:
   * the new exclusions. A session-level checkbox passes no location (`""`).
   */
  function HandleExclusionChange(e: Exclusions, selected: string, sessionId: string, location: string, checked: bool): Exclusions {
    if selected == "" then e
    else if checked then SchedulingHook.WithExclusion(e, selected, SchedulingHook.ExclusionKey(sessionId, location))
    else SchedulingHook.WithoutExclusion(e, selected, SchedulingHook.ExclusionKey(sessionId, location))
  }

  /**
   * Without a selected teacher nothing changes. Otherwise a checked box
   * excludes the selected teacher from the session (or room), an unchecked
   * one lifts that exclusion; the selected teacher's other keys stay, and no
   * other teacher is affected.
   */
  lemma ExclusionChangeEffect(e: Exclusions, selected: string, sessionId: string, location: string, checked: bool)
    ensures var r := HandleExclusionChange(e, selected, sessionId, location, checked);
      var key := SchedulingHook.ExclusionKey(sessionId, location);
      (selected == "" ==> r == e)
      && (selected != "" ==> (key in SchedulingHook.ExclusionsOf(r, selected) <==> checked))
      && (selected != "" ==> SchedulingHook.ExclusionsOf(r, selected) - {key} == SchedulingHook.ExclusionsOf(e, selected) - {key})
      && forall t :: t != selected ==> SchedulingHook.ExclusionsOf(r, t) == SchedulingHook.ExclusionsOf(e, t)
  {
    var r := HandleExclusionChange(e, selected, sessionId, location, checked);
    var key := SchedulingHook.ExclusionKey(sessionId, location);
    if selected != "" && !checked {
      assert selected in r ==> key !in r[selected];
    }
  }

  /** `toggleSection`: a copy of the expanded set with `section` flipped. */
  function ToggleSection(expanded: set<string>, section: string): (r: set<string>)
    ensures section in r <==> section !in expanded
    ensures forall s :: s != section ==> (s in r <==> s in expanded)
  {
    if section in expanded then expanded - {section} else expanded + {section}
  }

  /** Toggling a section twice restores the expanded set. */
  lemma ToggleTwice(expanded: set<string>, section: string)
    ensures ToggleSection(ToggleSection(expanded, section), section) == expanded
  {
    var once := ToggleSection(expanded, section);
    var twice := ToggleSection(once, section);
    forall s ensures s in twice <==> s in expanded {
      if s == section {
      } else {
        assert s in once <==> s in expanded;
      }
    }
  }
}
