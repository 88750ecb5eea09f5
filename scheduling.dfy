/**
 * The basic assignment engine. Designated and forced pins are placed first;
 * every seat still missing becomes one demand; the demands, in date, time and
 * room order, are each given to the least-loaded teacher who is free, not
 * excluded and new to that room; the finished list is sorted by date, time
 * and room.
 *
 * The phases are specified as left folds (`PinPhase`, `FillPhase`) over the
 * step functions `PinStep` and `FillStep`; the method
 * `GenerateOptimalAssignments` runs the source's loops and is proved to
 * compute the folds.
 */
module Scheduling {
  import opened Common
  import opened Text
  import opened Sorting
  import opened Domain

  /** The engine's `teacherWorkload` map. */
  type Workload = map<string, Load>

  /** `teacherWorkload.get(name) || { count: 0, duration: 0 }`. */
  function LoadOf(w: Workload, name: string): Load {
    if name in w then w[name] else Load(0, 0)
  }

  /** `updateTeacherWorkload`: one more duty of the schedule's length for `teacher`, and for nobody else. */
  function Record(w: Workload, teacher: string, s: Schedule): (r: Workload)
    ensures r.Keys == w.Keys + {teacher}
    ensures LoadOf(r, teacher) == AddLoad(LoadOf(w, teacher), Load(1, Duration(s.startTime, s.endTime)))
    ensures forall n :: n != teacher ==> LoadOf(r, n) == LoadOf(w, n)
  {
    w[teacher := AddLoad(LoadOf(w, teacher), Load(1, Duration(s.startTime, s.endTime)))]
  }

  function Names(teachers: seq<Teacher>): set<string> {
    set i | 0 <= i < |teachers| :: teachers[i].name
  }

  /** The starting workload: every listed teacher at their history, or at zero without one. */
  function Seed(teachers: seq<Teacher>, h: HistoricalStats): Workload {
    map n | n in Names(teachers) :: HistoryOf(h, n)
  }

  /** The `teachers.forEach(... teacherWorkload.set(...))` loop. */
  method InitWorkload(teachers: seq<Teacher>, h: HistoricalStats) returns (w: Workload)
    ensures w == Seed(teachers, h)
  {
    w := map[];
    for i := 0 to |teachers|
      invariant w == Seed(teachers[..i], h)
    {
      assert Names(teachers[..i + 1]) == Names(teachers[..i]) + {teachers[i].name} by {
        assert forall k :: 0 <= k < i ==> teachers[..i + 1][k] == teachers[..i][k];
      }
      w := w[teachers[i].name := HistoryOf(h, teachers[i].name)];
    }
    assert teachers[..|teachers|] == teachers;
  }

  /** Seeds are the historical load, or (0, 0) when the teacher has none or is not listed. */
  lemma SeedLoad(teachers: seq<Teacher>, h: HistoricalStats, n: string)
    ensures LoadOf(Seed(teachers, h), n) == if n in Names(teachers) then HistoryOf(h, n) else Load(0, 0)
    ensures n in Names(teachers) && n !in h ==> LoadOf(Seed(teachers, h), n) == Load(0, 0)
  {
  }

  // ---------------------------------------------------------------------------
  // Step 1: pins

  datatype PinKind = DesignatedPin | ForcedPin

  /** One entry of `preAssignedTasks`; `key` is the value of `task.slotId || task.sessionId`. */
  datatype Pin = Pin(kind: PinKind, teacher: string, key: string, location: string)

  /**
   * A designated task has no `sessionId`, so an empty `slotId` leaves
   * `undefined`, which `startsWith` reads as the text "undefined".
   */
  function DesignatedPinOf(t: DesignatedTask): Pin {
    Pin(DesignatedPin, t.teacher, if t.slotId != "" then t.slotId else "undefined", t.location)
  }

  /** A forced task has no `slotId`, so its key is its session id. */
  function ForcedPinOf(t: ForcedTask): Pin {
    Pin(ForcedPin, t.teacher, t.sessionId, t.location)
  }

  function DesignatedPins(ds: seq<DesignatedTask>): (r: seq<Pin>)
    ensures |r| == |ds| && forall i :: 0 <= i < |ds| ==> r[i] == DesignatedPinOf(ds[i])
  {
    seq(|ds|, i requires 0 <= i < |ds| => DesignatedPinOf(ds[i]))
  }

  function ForcedPins(fs: seq<ForcedTask>): (r: seq<Pin>)
    ensures |r| == |fs| && forall i :: 0 <= i < |fs| ==> r[i] == ForcedPinOf(fs[i])
  {
    seq(|fs|, i requires 0 <= i < |fs| => ForcedPinOf(fs[i]))
  }

  /** `[...designated.map(...), ...forced.map(...)]`: every designated pin comes before every forced pin. */
  function PreAssigned(tasks: SpecialTasks): (r: seq<Pin>)
    ensures |r| == |tasks.designated| + |tasks.forced|
    ensures forall i :: 0 <= i < |tasks.designated| ==> r[i].kind == DesignatedPin
    ensures forall i :: |tasks.designated| <= i < |r| ==> r[i].kind == ForcedPin
  {
    DesignatedPins(tasks.designated) + ForcedPins(tasks.forced)
  }

  predicate PinMatches(s: Schedule, p: Pin) {
    StartsWith(s.id, p.key) && s.location == p.location
  }

  /** `schedules.find(...)`: the index of the first schedule the pin matches. */
  function FindPinSchedule(schedules: seq<Schedule>, p: Pin): (r: Option<nat>)
    ensures r.Some? ==> r.value < |schedules| && PinMatches(schedules[r.value], p)
    ensures r.Some? ==> forall j :: 0 <= j < r.value ==> !PinMatches(schedules[j], p)
    ensures r.None? <==> forall j :: 0 <= j < |schedules| ==> !PinMatches(schedules[j], p)
  {
    if schedules == [] then None
    else if PinMatches(schedules[0], p) then Some(0)
    else
      match FindPinSchedule(schedules[1..], p)
      case None => None
      case Some(i) => Some(i + 1)
  }

  /** An earlier placement of `teacher` on the same date overlaps `s` in time. */
  predicate Clashes(a: Assignment, teacher: string, s: Schedule) {
    a.teacher == teacher && a.date == s.date && TimesOverlap(a.startTime, a.endTime, s.startTime, s.endTime)
  }

  predicate Busy(acc: seq<Assignment>, teacher: string, s: Schedule) {
    exists j :: 0 <= j < |acc| && Clashes(acc[j], teacher, s)
  }

  function PinSource(p: Pin): AssignedBy {
    if p.kind == ForcedPin then Forced else Designated
  }

  function ConflictMarker(p: Pin): string {
    if p.kind == ForcedPin then LockConflictMarker(p.teacher) else DesignatedConflictMarker(p.teacher)
  }

  /** The assignments placed so far and the workload map. */
  datatype Run = Run(assignments: seq<Assignment>, workload: Workload)

  /** One iteration of the pin loop. */
  function PinStep(r: Run, schedules: seq<Schedule>, p: Pin): Run {
    match FindPinSchedule(schedules, p)
    case None => r
    case Some(i) =>
      var s := schedules[i];
      if Busy(r.assignments, p.teacher, s)
      then Run(r.assignments + [Place(s, ConflictMarker(p), PinSource(p))], r.workload)
      else Run(r.assignments + [Place(s, p.teacher, PinSource(p))], Record(r.workload, p.teacher, s))
  }

  function PinPhase(r: Run, schedules: seq<Schedule>, pins: seq<Pin>): Run
    decreases |pins|
  {
    if pins == [] then r else PinStep(PinPhase(r, schedules, pins[..|pins| - 1]), schedules, pins[|pins| - 1])
  }

  /** Running the pins of `a + b` is running those of `a`, then those of `b`. */
  lemma {:induction false} PinPhaseAppend(r: Run, schedules: seq<Schedule>, a: seq<Pin>, b: seq<Pin>)
    ensures PinPhase(r, schedules, a + b) == PinPhase(PinPhase(r, schedules, a), schedules, b)
    decreases |b|
  {
    if b == [] {
      assert a + b == a;
    } else {
      assert (a + b)[..|a + b| - 1] == a + b[..|b| - 1];
      PinPhaseAppend(r, schedules, a, b[..|b| - 1]);
    }
  }

  /** All designated pins are processed before all forced pins. */
  lemma DesignatedBeforeForced(r: Run, schedules: seq<Schedule>, tasks: SpecialTasks)
    ensures PinPhase(r, schedules, PreAssigned(tasks))
         == PinPhase(PinPhase(r, schedules, DesignatedPins(tasks.designated)), schedules, ForcedPins(tasks.forced))
  {
    PinPhaseAppend(r, schedules, DesignatedPins(tasks.designated), ForcedPins(tasks.forced));
  }

  /**
   * A pin with no matching schedule emits nothing. A matching pin appends one
   * copy of the first matching schedule, tagged with the pin's kind; if the
   * teacher is already placed at an overlapping time that day it carries the
   * conflict marker and the workload stays as it was, otherwise it carries the
   * teacher and the workload records the duty.
   */
  lemma PinStepEffect(r: Run, schedules: seq<Schedule>, p: Pin)
    ensures (forall j :: 0 <= j < |schedules| ==> !PinMatches(schedules[j], p)) ==> PinStep(r, schedules, p) == r
    ensures forall i :: 0 <= i < |schedules| && PinMatches(schedules[i], p)
                        && (forall j :: 0 <= j < i ==> !PinMatches(schedules[j], p)) ==>
      var s := schedules[i];
      var a := Place(s, if Busy(r.assignments, p.teacher, s) then ConflictMarker(p) else p.teacher, PinSource(p));
      PinStep(r, schedules, p).assignments == r.assignments + [a]
      && (Busy(r.assignments, p.teacher, s) ==> PinStep(r, schedules, p).workload == r.workload)
      && (!Busy(r.assignments, p.teacher, s) ==> PinStep(r, schedules, p).workload == Record(r.workload, p.teacher, s))
  {
    forall i | 0 <= i < |schedules| && PinMatches(schedules[i], p) && (forall j :: 0 <= j < i ==> !PinMatches(schedules[j], p))
      ensures FindPinSchedule(schedules, p) == Some(i)
    {
      var f := FindPinSchedule(schedules, p);
      assert f.Some? && PinMatches(schedules[f.value], p);
      assert PinMatches(schedules[i], p);
    }
  }

  /**
   * The conflict markers of the pin step are recognisable as markers, and the
   * seat check later reads back from them the text after the teacher name's
   * last `: ` (the whole name when it has none).
   */
  lemma ConflictMarkerIsMarker(p: Pin)
    ensures IsMarker(ConflictMarker(p))
    ensures OneLine(p.teacher, 0, |p.teacher|) ==> Unwrap(ConflictMarker(p)) == AfterLastColonSpace(p.teacher)
  {
    MarkerClassification(p.teacher);
    if OneLine(p.teacher, 0, |p.teacher|) {
      UnwrapMarkers(p.teacher);
    }
  }

  // ---------------------------------------------------------------------------
  // Step 2: demands

  function FilledFor(id: string): Assignment -> bool {
    (a: Assignment) => a.id == id && !IsMarker(a.teacher)
  }

  /** The number of seats of schedule `id` already held by a person. */
  function Filled(acc: seq<Assignment>, id: string): nat {
    CountWhere(acc, FilledFor(id))
  }

  /** `schedule.required - assignedCount`, or 0 when that is negative. */
  function Remaining(s: Schedule, acc: seq<Assignment>): nat {
    if s.required - Filled(acc, s.id) > 0 then s.required - Filled(acc, s.id) else 0
  }

  /** `${id}_auto_${i}`. */
  function AutoId(id: string, i: nat): string { id + "_auto_" + NatToString(i) }

  /** The single-seat demands of one schedule. */
  function DemandsFor(s: Schedule, acc: seq<Assignment>): seq<Schedule> {
    seq(Remaining(s, acc), i requires 0 <= i < Remaining(s, acc) => s.(id := AutoId(s.id, i)))
  }

  /** The list `getRemainingSlots` builds. */
  function Demands(schedules: seq<Schedule>, acc: seq<Assignment>): seq<Schedule>
    decreases |schedules|
  {
    if schedules == [] then []
    else Demands(schedules[..|schedules| - 1], acc) + DemandsFor(schedules[|schedules| - 1], acc)
  }

  /** `getRemainingSlots`. */
  method GetRemainingSlots(schedules: seq<Schedule>, assignments: seq<Assignment>) returns (slots: seq<Schedule>)
    ensures slots == Demands(schedules, assignments)
  {
    slots := [];
    for k := 0 to |schedules|
      invariant slots == Demands(schedules[..k], assignments)
    {
      var schedule := schedules[k];
      var assignedCount := |Filter(assignments, FilledFor(schedule.id))|;
      var remaining := schedule.required - assignedCount;
      assert |DemandsFor(schedule, assignments)| == Remaining(schedule, assignments);
      ghost var before := slots;
      var i := 0;
      while i < remaining
        invariant 0 <= i <= Remaining(schedule, assignments)
        invariant slots == before + DemandsFor(schedule, assignments)[..i]
      {
        assert DemandsFor(schedule, assignments)[..i + 1] == DemandsFor(schedule, assignments)[..i] + [schedule.(id := AutoId(schedule.id, i))];
        slots := slots + [schedule.(id := AutoId(schedule.id, i))];
        i := i + 1;
      }
      assert DemandsFor(schedule, assignments)[..i] == DemandsFor(schedule, assignments);
      assert schedules[..k + 1][..k] == schedules[..k];
    }
    assert schedules[..|schedules|] == schedules;
  }

  function RemainingOf(acc: seq<Assignment>): Schedule -> int {
    s => Remaining(s, acc)
  }

  /**
   * Every schedule contributes `max(0, required - held seats)` demands, each a
   * copy of the schedule whose id is `${id}_auto_${i}` with `i` counting from 0,
   * and every such copy is among the demands.
   */
  lemma {:induction false} DemandsShape(schedules: seq<Schedule>, acc: seq<Assignment>)
    ensures |Demands(schedules, acc)| == SumOf(schedules, RemainingOf(acc))
    ensures forall d :: d in Demands(schedules, acc) ==>
      exists k, i :: 0 <= k < |schedules| && 0 <= i < Remaining(schedules[k], acc) && d == schedules[k].(id := AutoId(schedules[k].id, i))
    ensures forall k, i :: 0 <= k < |schedules| && 0 <= i < Remaining(schedules[k], acc) ==>
      schedules[k].(id := AutoId(schedules[k].id, i)) in Demands(schedules, acc)
    decreases |schedules|
  {
    if schedules != [] {
      var init, last := schedules[..|schedules| - 1], schedules[|schedules| - 1];
      DemandsShape(init, acc);
      forall d | d in Demands(schedules, acc)
        ensures exists k, i :: 0 <= k < |schedules| && 0 <= i < Remaining(schedules[k], acc) && d == schedules[k].(id := AutoId(schedules[k].id, i))
      {
        if d in Demands(init, acc) {
          var k, i :| 0 <= k < |init| && 0 <= i < Remaining(init[k], acc) && d == init[k].(id := AutoId(init[k].id, i));
          assert schedules[k] == init[k];
        } else {
          var i :| 0 <= i < |DemandsFor(last, acc)| && DemandsFor(last, acc)[i] == d;
          assert schedules[|schedules| - 1] == last;
        }
      }
      forall k, i | 0 <= k < |schedules| && 0 <= i < Remaining(schedules[k], acc)
        ensures schedules[k].(id := AutoId(schedules[k].id, i)) in Demands(schedules, acc)
      {
        if k < |init| {
          assert schedules[k] == init[k];
        } else {
          assert DemandsFor(last, acc)[i] == last.(id := AutoId(last.id, i));
        }
      }
    }
  }

  // ---------------------------------------------------------------------------
  // Step 3: ordering keys

  /** The demand order: `new Date(`${date} ${startTime}`)`, then the room. */
  function DemandKey(s: Schedule): seq<int> { Instant(s.date, s.startTime) + Codes(s.location) }

  /** The final order of the assignment list: date and start time, then the room. */
  function AssignmentKey(a: Assignment): seq<int> { Instant(a.date, a.startTime) + Codes(a.location) }

  /** Assignments compare by start instant and, at the same instant, by room. */
  lemma AssignmentOrder(a: Assignment, b: Assignment)
    ensures LexLe(AssignmentKey(a), AssignmentKey(b)) <==>
      (Instant(a.date, a.startTime) != Instant(b.date, b.startTime) && LexLe(Instant(a.date, a.startTime), Instant(b.date, b.startTime)))
      || (Instant(a.date, a.startTime) == Instant(b.date, b.startTime) && LexLe(Codes(a.location), Codes(b.location)))
  {
    LexLeConcat(Instant(a.date, a.startTime), Codes(a.location), Instant(b.date, b.startTime), Codes(b.location));
  }

  // ---------------------------------------------------------------------------
  // Step 4: filling the demands

  function SameId(id: string): Assignment -> bool { (a: Assignment) => a.id == id }

  /** `assignedTeachersInSlot`: the teachers already on this exact seat, markers unwrapped. */
  function InSlot(acc: seq<Assignment>, id: string): seq<string> {
    var f := Filter(acc, SameId(id));
    seq(|f|, i requires 0 <= i < |f| => Unwrap(f[i].teacher))
  }

  /** Every assignment on the seat contributes its unwrapped teacher to `InSlot`. */
  lemma InSlotHolds(acc: seq<Assignment>, id: string, b: Assignment)
    requires b in acc && b.id == id
    ensures Unwrap(b.teacher) in InSlot(acc, id)
  {
    FilterMember(acc, SameId(id), b);
    var f := Filter(acc, SameId(id));
    var k :| 0 <= k < |f| && f[k] == b;
    assert InSlot(acc, id)[k] == Unwrap(b.teacher);
  }

  /**
   * A seat held by the lock-conflict marker of the name `A: B` bars `B`, not
   * `A: B`, from the seat: the greedy pattern keeps only the last part.
   */
  lemma SeatMarkerBarsLastPart(acc: seq<Assignment>, id: string, b: Assignment)
    requires b in acc && b.id == id && b.teacher == LockConflictMarker("A: B")
    ensures "B" in InSlot(acc, id)
  {
    InSlotHolds(acc, id, b);
    UnwrapKeepsLastPart();
  }

  /** An earlier placement of `teacher` in this room, on any date. */
  predicate PlacedAt(acc: seq<Assignment>, teacher: string, location: string) {
    exists j :: 0 <= j < |acc| && acc[j].teacher == teacher && acc[j].location == location
  }

  /** The test of `getEligibleTeachers`. */
  predicate EligibleFor(name: string, slot: Schedule, acc: seq<Assignment>, excl: Exclusions) {
    name !in InSlot(acc, slot.id)
    && !Busy(acc, name, slot)
    && !ExcludedFrom(excl, name, slot.date, slot.startTime, slot.endTime, slot.location)
    && !PlacedAt(acc, name, slot.location)
  }

  function Eligibility(slot: Schedule, acc: seq<Assignment>, excl: Exclusions): Teacher -> bool {
    (t: Teacher) => EligibleFor(t.name, slot, acc, excl)
  }

  /** `getEligibleTeachers`: the eligible teachers, in teacher-list order. */
  function EligibleTeachers(teachers: seq<Teacher>, slot: Schedule, acc: seq<Assignment>, excl: Exclusions): seq<Teacher> {
    Filter(teachers, Eligibility(slot, acc, excl))
  }

  /** The comparator of the workload sort: duty count, then minutes. */
  function WorkloadKey(w: Workload): Teacher -> seq<int> {
    (t: Teacher) => [LoadOf(w, t.name).count, LoadOf(w, t.name).duration]
  }

  /** One iteration of the fill loop. */
  function FillStep(r: Run, teachers: seq<Teacher>, excl: Exclusions, slot: Schedule): (r': Run)
    ensures |r'.assignments| == |r.assignments| + 1 && r'.assignments[..|r.assignments|] == r.assignments
  {
    var eligible := EligibleTeachers(teachers, slot, r.assignments, excl);
    if |eligible| > 0 then
      var chosen := SortBy(eligible, WorkloadKey(r.workload))[0];
      Run(r.assignments + [Place(slot, chosen.name, Auto)], Record(r.workload, chosen.name, slot))
    else
      Run(r.assignments + [Place(slot, UnassignableMarker, Auto)], r.workload)
  }

  function FillPhase(r: Run, teachers: seq<Teacher>, excl: Exclusions, slots: seq<Schedule>): (r': Run)
    ensures |r'.assignments| == |r.assignments| + |slots|
    decreases |slots|
  {
    if slots == [] then r else FillStep(FillPhase(r, teachers, excl, slots[..|slots| - 1]), teachers, excl, slots[|slots| - 1])
  }

  /**
   * What one fill promises: it appends one `auto` copy of the demand. Either no
   * teacher is eligible, the copy reads `!!无法分配!!` and the workload is
   * unchanged; or the copy carries the name of the eligible teacher with the
   * least (count, minutes), the earliest in the teacher list among equals,
   * and that teacher's workload records the duty.
   */
  ghost predicate FillChoice(before: Run, teachers: seq<Teacher>, excl: Exclusions, slot: Schedule, after: Run) {
    |after.assignments| == |before.assignments| + 1
    && after.assignments[..|before.assignments|] == before.assignments
    && var a := after.assignments[|before.assignments|];
       a == Place(slot, a.teacher, Auto)
       && ((a.teacher == UnassignableMarker && after.workload == before.workload
            && forall j :: 0 <= j < |teachers| ==> !EligibleFor(teachers[j].name, slot, before.assignments, excl))
           || (exists i :: 0 <= i < |teachers| && teachers[i].name == a.teacher
                 && FirstMinimumAt(teachers, Eligibility(slot, before.assignments, excl), WorkloadKey(before.workload), i)
                 && after.workload == Record(before.workload, a.teacher, slot)))
  }

  lemma FillStepChoice(r: Run, teachers: seq<Teacher>, excl: Exclusions, slot: Schedule)
    ensures FillChoice(r, teachers, excl, slot, FillStep(r, teachers, excl, slot))
  {
    var after := FillStep(r, teachers, excl, slot);
    var p := Eligibility(slot, r.assignments, excl);
    assert after.assignments[..|r.assignments|] == r.assignments;
    if |EligibleTeachers(teachers, slot, r.assignments, excl)| > 0 {
      SortFilterHead(teachers, p, WorkloadKey(r.workload));
    } else {
      forall j | 0 <= j < |teachers| ensures !EligibleFor(teachers[j].name, slot, r.assignments, excl) {
        FilterMember(teachers, p, teachers[j]);
      }
    }
  }

  /**
   * When some listed teacher is eligible, the seat goes to a listed teacher
   * who is not yet on this seat, has no overlapping duty that day, is not
   * excluded from the session or room, and has not yet served in this room.
   * "On this seat" is judged on the unwrapped texts, so a person whose name
   * holds no `!!` and who already holds this seat is never chosen again.
   */
  lemma FillNeverDoubleBooks(r: Run, teachers: seq<Teacher>, excl: Exclusions, slot: Schedule)
    requires exists j :: 0 <= j < |teachers| && EligibleFor(teachers[j].name, slot, r.assignments, excl)
    ensures var a := FillStep(r, teachers, excl, slot).assignments[|r.assignments|];
      (exists i :: 0 <= i < |teachers| && teachers[i].name == a.teacher)
      && a.teacher !in InSlot(r.assignments, slot.id)
      && !Busy(r.assignments, a.teacher, slot)
      && !ExcludedFrom(excl, a.teacher, slot.date, slot.startTime, slot.endTime, slot.location)
      && !PlacedAt(r.assignments, a.teacher, slot.location)
      && forall b :: b in r.assignments && b.id == slot.id && (forall q :: !Bangs(b.teacher, q)) ==> b.teacher != a.teacher
  {
    FillStepChoice(r, teachers, excl, slot);
    var a := FillStep(r, teachers, excl, slot).assignments[|r.assignments|];
    forall b | b in r.assignments && b.id == slot.id && (forall q :: !Bangs(b.teacher, q)) ensures b.teacher != a.teacher {
      InSlotHolds(r.assignments, slot.id, b);
      UnwrapUnmatched(b.teacher);
    }
  }

  /** The fill phase appends exactly one assignment per demand, in demand order. */
  lemma {:induction false} FillPhasePrefix(r: Run, teachers: seq<Teacher>, excl: Exclusions, slots: seq<Schedule>, j: nat)
    requires j <= |slots|
    ensures |FillPhase(r, teachers, excl, slots).assignments| == |r.assignments| + |slots|
    ensures FillPhase(r, teachers, excl, slots).assignments[..|r.assignments| + j] == FillPhase(r, teachers, excl, slots[..j]).assignments
    decreases |slots| - j
  {
    if j == |slots| {
      assert slots[..j] == slots;
    } else {
      FillPhasePrefix(r, teachers, excl, slots, j + 1);
      FillPhaseKeeps(r, teachers, excl, slots, j);
      var all := FillPhase(r, teachers, excl, slots).assignments;
      assert all[..|r.assignments| + j] == all[..|r.assignments| + j + 1][..|r.assignments| + j];
    }
  }

  /** One more demand keeps the list filled so far as the first part. */
  lemma FillPhaseKeeps(r: Run, teachers: seq<Teacher>, excl: Exclusions, slots: seq<Schedule>, j: nat)
    requires j < |slots|
    ensures FillPhase(r, teachers, excl, slots[..j + 1]).assignments[..|r.assignments| + j] == FillPhase(r, teachers, excl, slots[..j]).assignments
  {
    FillPhaseSnoc(r, teachers, excl, slots, j);
  }

  /**
   * Every demand `j` is filled as `FillChoice` says, judged against the state
   * after the demands before it; that state's list is the first part of the
   * final list.
   */
  lemma FillPhaseChoices(r: Run, teachers: seq<Teacher>, excl: Exclusions, slots: seq<Schedule>, j: nat)
    requires j < |slots|
    ensures var before := FillPhase(r, teachers, excl, slots[..j]);
      FillPhase(r, teachers, excl, slots).assignments[..|r.assignments| + j + 1] == FillStep(before, teachers, excl, slots[j]).assignments
      && FillChoice(before, teachers, excl, slots[j], FillStep(before, teachers, excl, slots[j]))
  {
    FillPhasePrefix(r, teachers, excl, slots, j + 1);
    FillPhaseSnoc(r, teachers, excl, slots, j);
    FillStepChoice(FillPhase(r, teachers, excl, slots[..j]), teachers, excl, slots[j]);
  }

  lemma FillPhaseSnoc(r: Run, teachers: seq<Teacher>, excl: Exclusions, slots: seq<Schedule>, j: nat)
    requires j < |slots|
    ensures FillPhase(r, teachers, excl, slots[..j + 1]) == FillStep(FillPhase(r, teachers, excl, slots[..j]), teachers, excl, slots[j])
  {
    assert slots[..j + 1][..j] == slots[..j];
  }

  // ---------------------------------------------------------------------------
  // Workload bookkeeping

  /** Every person's workload is the seed plus the duties in the assignment list. */
  ghost predicate Booked(r: Run, seed: Workload) {
    forall n :: !IsMarker(n) ==> LoadOf(r.workload, n) == AddLoad(LoadOf(seed, n), CurrentLoad(r.assignments, n))
  }

  /** Appending a marker and leaving the workload alone keeps the books. */
  lemma SnocMarkerBooked(r: Run, seed: Workload, a: Assignment)
    requires Booked(r, seed) && IsMarker(a.teacher)
    ensures Booked(Run(r.assignments + [a], r.workload), seed)
  {
    forall n | !IsMarker(n) ensures LoadOf(r.workload, n) == AddLoad(LoadOf(seed, n), CurrentLoad(r.assignments + [a], n)) {
      CurrentLoadSnoc(r.assignments, a, n);
      assert !IsDutyOf(a, n);
    }
  }

  /** Appending a duty and recording it in the workload keeps the books. */
  lemma SnocDutyBooked(r: Run, seed: Workload, a: Assignment, s: Schedule)
    requires Booked(r, seed)
    requires s.startTime == a.startTime && s.endTime == a.endTime
    ensures Booked(Run(r.assignments + [a], Record(r.workload, a.teacher, s)), seed)
  {
    var w := Record(r.workload, a.teacher, s);
    forall n | !IsMarker(n) ensures LoadOf(w, n) == AddLoad(LoadOf(seed, n), CurrentLoad(r.assignments + [a], n)) {
      SnocDutyAt(r, seed, a, s, n);
    }
  }

  lemma SnocDutyAt(r: Run, seed: Workload, a: Assignment, s: Schedule, n: string)
    requires !IsMarker(n)
    requires LoadOf(r.workload, n) == AddLoad(LoadOf(seed, n), CurrentLoad(r.assignments, n))
    requires s.startTime == a.startTime && s.endTime == a.endTime
    ensures LoadOf(Record(r.workload, a.teacher, s), n) == AddLoad(LoadOf(seed, n), CurrentLoad(r.assignments + [a], n))
  {
    if n == a.teacher {
      SnocDutyOwn(r, seed, a, s, n);
    } else {
      OtherDuty(r.assignments, a, n);
      assert LoadOf(Record(r.workload, a.teacher, s), n) == LoadOf(r.workload, n);
    }
  }

  lemma OtherDuty(acc: seq<Assignment>, a: Assignment, n: string)
    requires n != a.teacher
    ensures CurrentLoad(acc + [a], n) == CurrentLoad(acc, n)
  {
    CurrentLoadSnoc(acc, a, n);
  }

  lemma SnocDutyOwn(r: Run, seed: Workload, a: Assignment, s: Schedule, n: string)
    requires !IsMarker(n) && n == a.teacher
    requires LoadOf(r.workload, n) == AddLoad(LoadOf(seed, n), CurrentLoad(r.assignments, n))
    requires s.startTime == a.startTime && s.endTime == a.endTime
    ensures LoadOf(Record(r.workload, a.teacher, s), n) == AddLoad(LoadOf(seed, n), CurrentLoad(r.assignments + [a], n))
  {
    var d := Duration(a.startTime, a.endTime);
    OwnDuty(r.assignments, a, n);
    assert LoadOf(Record(r.workload, a.teacher, s), n) == AddLoad(LoadOf(r.workload, n), Load(1, d));
    AddLoadAssoc(LoadOf(seed, n), CurrentLoad(r.assignments, n), Load(1, d));
  }

  lemma OwnDuty(acc: seq<Assignment>, a: Assignment, n: string)
    requires !IsMarker(n) && n == a.teacher
    ensures CurrentLoad(acc + [a], n) == AddLoad(CurrentLoad(acc, n), Load(1, Duration(a.startTime, a.endTime)))
  {
    CurrentLoadSnoc(acc, a, n);
  }

  lemma AddLoadAssoc(x: Load, y: Load, z: Load)
    ensures AddLoad(AddLoad(x, y), z) == AddLoad(x, AddLoad(y, z))
  {
  }

  lemma PinStepBooked(r: Run, seed: Workload, schedules: seq<Schedule>, p: Pin)
    requires Booked(r, seed)
    ensures Booked(PinStep(r, schedules, p), seed)
  {
    match FindPinSchedule(schedules, p)
    case None =>
    case Some(i) =>
      var s := schedules[i];
      if Busy(r.assignments, p.teacher, s) {
        ConflictMarkerIsMarker(p);
        SnocMarkerBooked(r, seed, Place(s, ConflictMarker(p), PinSource(p)));
      } else {
        SnocDutyBooked(r, seed, Place(s, p.teacher, PinSource(p)), s);
      }
  }

  lemma FillStepBooked(r: Run, seed: Workload, teachers: seq<Teacher>, excl: Exclusions, slot: Schedule)
    requires Booked(r, seed)
    ensures Booked(FillStep(r, teachers, excl, slot), seed)
  {
    var eligible := EligibleTeachers(teachers, slot, r.assignments, excl);
    if |eligible| > 0 {
      var chosen := SortBy(eligible, WorkloadKey(r.workload))[0];
      SnocDutyBooked(r, seed, Place(slot, chosen.name, Auto), slot);
    } else {
      MarkerClassification("");
      SnocMarkerBooked(r, seed, Place(slot, UnassignableMarker, Auto));
    }
  }

  lemma {:induction false} PinPhaseBooked(r: Run, seed: Workload, schedules: seq<Schedule>, pins: seq<Pin>)
    requires Booked(r, seed)
    ensures Booked(PinPhase(r, schedules, pins), seed)
    decreases |pins|
  {
    if pins != [] {
      PinPhaseBooked(r, seed, schedules, pins[..|pins| - 1]);
      PinStepBooked(PinPhase(r, schedules, pins[..|pins| - 1]), seed, schedules, pins[|pins| - 1]);
    }
  }

  lemma {:induction false} FillPhaseBooked(r: Run, seed: Workload, teachers: seq<Teacher>, excl: Exclusions, slots: seq<Schedule>)
    requires Booked(r, seed)
    ensures Booked(FillPhase(r, teachers, excl, slots), seed)
    decreases |slots|
  {
    if slots != [] {
      FillPhaseBooked(r, seed, teachers, excl, slots[..|slots| - 1]);
      FillStepBooked(FillPhase(r, teachers, excl, slots[..|slots| - 1]), seed, teachers, excl, slots[|slots| - 1]);
    }
  }

  // ---------------------------------------------------------------------------
  // The whole engine

  function PinRun(teachers: seq<Teacher>, schedules: seq<Schedule>, tasks: SpecialTasks, h: HistoricalStats): Run {
    PinPhase(Run([], Seed(teachers, h)), schedules, PreAssigned(tasks))
  }

  /** The demands after the pins, in fill order. */
  function SortedDemands(teachers: seq<Teacher>, schedules: seq<Schedule>, tasks: SpecialTasks, h: HistoricalStats): seq<Schedule> {
    SortBy(Demands(schedules, PinRun(teachers, schedules, tasks, h).assignments), DemandKey)
  }

  /** The state after both loops, before the final sort. */
  function Engine(teachers: seq<Teacher>, schedules: seq<Schedule>, tasks: SpecialTasks, excl: Exclusions, h: HistoricalStats): Run {
    FillPhase(PinRun(teachers, schedules, tasks, h), teachers, excl, SortedDemands(teachers, schedules, tasks, h))
  }

  /**
   * `generateOptimalAssignments`: the result holds exactly the pin and fill
   * assignments, ordered by start date-time and then room, with the placement
   * order kept among equals.
   */
  method GenerateOptimalAssignments(teachers: seq<Teacher>, schedules: seq<Schedule>, tasks: SpecialTasks,
                                    excl: Exclusions, h: HistoricalStats) returns (result: seq<Assignment>)
    ensures multiset(result) == multiset(Engine(teachers, schedules, tasks, excl, h).assignments)
    ensures SortedBy(result, AssignmentKey)
    ensures forall k :: Tied(result, AssignmentKey, k) == Tied(Engine(teachers, schedules, tasks, excl, h).assignments, AssignmentKey, k)
  {
    var workload := InitWorkload(teachers, h);
    var assignments;
    assignments, workload := RunPins([], workload, schedules, PreAssigned(tasks));
    var remainingSlots := GetRemainingSlots(schedules, assignments);
    remainingSlots := SortBy(remainingSlots, DemandKey);
    assignments, workload := RunFills(assignments, workload, teachers, excl, remainingSlots);
    result := SortBy(assignments, AssignmentKey);
    SortByPermutation(assignments, AssignmentKey);
    SortBySorted(assignments, AssignmentKey);
    forall k ensures Tied(result, AssignmentKey, k) == Tied(assignments, AssignmentKey, k) {
      SortByStable(assignments, AssignmentKey, k);
    }
  }

  /** The pin loop. */
  method RunPins(assignments: seq<Assignment>, workload: Workload, schedules: seq<Schedule>, pins: seq<Pin>)
    returns (assignments': seq<Assignment>, workload': Workload)
    ensures Run(assignments', workload') == PinPhase(Run(assignments, workload), schedules, pins)
  {
    assignments', workload' := assignments, workload;
    for k := 0 to |pins|
      invariant Run(assignments', workload') == PinPhase(Run(assignments, workload), schedules, pins[..k])
    {
      assert pins[..k + 1][..k] == pins[..k];
      assignments', workload' := PlacePin(assignments', workload', schedules, pins[k]);
    }
    assert pins[..|pins|] == pins;
  }

  /** The fill loop. */
  method RunFills(assignments: seq<Assignment>, workload: Workload, teachers: seq<Teacher>, excl: Exclusions, slots: seq<Schedule>)
    returns (assignments': seq<Assignment>, workload': Workload)
    ensures Run(assignments', workload') == FillPhase(Run(assignments, workload), teachers, excl, slots)
  {
    assignments', workload' := assignments, workload;
    for k := 0 to |slots|
      invariant Run(assignments', workload') == FillPhase(Run(assignments, workload), teachers, excl, slots[..k])
    {
      assert slots[..k + 1][..k] == slots[..k];
      assignments', workload' := FillSlot(assignments', workload', teachers, excl, slots[k]);
    }
    assert slots[..|slots|] == slots;
  }

  /** The body of the pin loop. */
  method PlacePin(assignments: seq<Assignment>, workload: Workload, schedules: seq<Schedule>, task: Pin)
    returns (assignments': seq<Assignment>, workload': Workload)
    ensures Run(assignments', workload') == PinStep(Run(assignments, workload), schedules, task)
  {
    assignments', workload' := assignments, workload;
    var found := FindPinSchedule(schedules, task);
    if found.Some? {
      var schedule := schedules[found.value];
      var hasConflict := Busy(assignments, task.teacher, schedule);
      assignments' := assignments + [Place(schedule, if hasConflict then ConflictMarker(task) else task.teacher, PinSource(task))];
      if !hasConflict {
        workload' := Record(workload, task.teacher, schedule);
      }
    }
  }

  /** The body of the fill loop. */
  method FillSlot(assignments: seq<Assignment>, workload: Workload, teachers: seq<Teacher>, excl: Exclusions, slot: Schedule)
    returns (assignments': seq<Assignment>, workload': Workload)
    ensures Run(assignments', workload') == FillStep(Run(assignments, workload), teachers, excl, slot)
  {
    var eligibleTeachers := EligibleTeachers(teachers, slot, assignments, excl);
    if |eligibleTeachers| > 0 {
      var sortedTeachers := SortBy(eligibleTeachers, WorkloadKey(workload));
      var chosenTeacher := sortedTeachers[0];
      assignments' := assignments + [Place(slot, chosenTeacher.name, Auto)];
      workload' := Record(workload, chosenTeacher.name, slot);
    } else {
      assignments' := assignments + [Place(slot, UnassignableMarker, Auto)];
      workload' := workload;
    }
  }

  /**
   * After the run, every listed teacher's workload equals their history plus
   * the duties they hold in the returned list: pins and fills add exactly one
   * duty of the slot's length, conflicts and unassignable seats add nothing.
   */
  lemma EngineWorkload(teachers: seq<Teacher>, schedules: seq<Schedule>, tasks: SpecialTasks, excl: Exclusions,
                       h: HistoricalStats, n: string)
    requires n in Names(teachers) && !IsMarker(n)
    ensures LoadOf(Engine(teachers, schedules, tasks, excl, h).workload, n)
         == AddLoad(HistoryOf(h, n), CurrentLoad(SortBy(Engine(teachers, schedules, tasks, excl, h).assignments, AssignmentKey), n))
  {
    var seed := Seed(teachers, h);
    var r0 := Run([], seed);
    assert Booked(r0, seed) by {
      forall m | !IsMarker(m) ensures LoadOf(r0.workload, m) == AddLoad(LoadOf(seed, m), CurrentLoad(r0.assignments, m)) {
      }
    }
    PinPhaseBooked(r0, seed, schedules, PreAssigned(tasks));
    FillPhaseBooked(PinRun(teachers, schedules, tasks, h), seed, teachers, excl, SortedDemands(teachers, schedules, tasks, h));
    var e := Engine(teachers, schedules, tasks, excl, h).assignments;
    SortBySum(e, AssignmentKey, DutyUnit(n));
    SortBySum(e, AssignmentKey, DutyMinutes(n));
  }

  /** Pins never produce `auto` entries. */
  lemma {:induction false} PinPhaseNotAuto(r: Run, schedules: seq<Schedule>, pins: seq<Pin>)
    ensures CountWhere(PinPhase(r, schedules, pins).assignments, IsAuto) == CountWhere(r.assignments, IsAuto)
    decreases |pins|
  {
    if pins != [] {
      var r' := PinPhase(r, schedules, pins[..|pins| - 1]);
      PinPhaseNotAuto(r, schedules, pins[..|pins| - 1]);
      var p := pins[|pins| - 1];
      match FindPinSchedule(schedules, p)
      case None =>
      case Some(i) =>
        var s := schedules[i];
        var t := if Busy(r'.assignments, p.teacher, s) then ConflictMarker(p) else p.teacher;
        assert PinStep(r', schedules, p).assignments == r'.assignments + [Place(s, t, PinSource(p))];
        CountWhereSnoc(r'.assignments, Place(s, t, PinSource(p)), IsAuto);
    }
  }

  /** Every fill produces exactly one `auto` entry. */
  lemma {:induction false} FillPhaseAuto(r: Run, teachers: seq<Teacher>, excl: Exclusions, slots: seq<Schedule>)
    ensures CountWhere(FillPhase(r, teachers, excl, slots).assignments, IsAuto) == CountWhere(r.assignments, IsAuto) + |slots|
    decreases |slots|
  {
    if slots != [] {
      var r' := FillPhase(r, teachers, excl, slots[..|slots| - 1]);
      FillPhaseAuto(r, teachers, excl, slots[..|slots| - 1]);
      var r'' := FillStep(r', teachers, excl, slots[|slots| - 1]);
      var a := r''.assignments[|r'.assignments|];
      assert r''.assignments == r'.assignments + [a];
      CountWhereSnoc(r'.assignments, a, IsAuto);
    }
  }

  function IsAuto(a: Assignment): bool { a.assignedBy == Auto }

  /** The `auto` entries of the result are exactly one per demand. */
  lemma EngineAutoCount(teachers: seq<Teacher>, schedules: seq<Schedule>, tasks: SpecialTasks, excl: Exclusions, h: HistoricalStats)
    ensures CountWhere(Engine(teachers, schedules, tasks, excl, h).assignments, IsAuto)
         == |Demands(schedules, PinRun(teachers, schedules, tasks, h).assignments)|
  {
    PinPhaseNotAuto(Run([], Seed(teachers, h)), schedules, PreAssigned(tasks));
    FillPhaseAuto(PinRun(teachers, schedules, tasks, h), teachers, excl, SortedDemands(teachers, schedules, tasks, h));
  }
}
