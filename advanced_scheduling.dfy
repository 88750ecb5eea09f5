/**
 * The score-based engine. Every teacher starts from a base score; forced pins
 * (then designated pins) are placed without a clash check and move the
 * teacher's score by -5 (+5); each demand, in start order, goes to the
 * eligible teacher with the highest base-plus-slot score, whose score then
 * drops by 10; the result is sorted by start date-time.
 */
module AdvancedScheduling {
  import opened Common
  import opened Text
  import opened Sorting
  import opened Domain
  import Scheduling

  /** The optional `preferences` argument; an absent one reads as all switches off. */
  datatype Preferences = Preferences(balanceWorkload: bool, minimizeConsecutive: bool, respectDepartments: bool,
                                     prioritizeExperience: bool, maxConsecutiveHours: int, maxDailyHours: int)

  const NoPreferences := Preferences(false, false, false, false, 0, 0)

  function Effective(p: Option<Preferences>): Preferences { p.GetOr(NoPreferences) }

  // ---------------------------------------------------------------------------
  // The score table: a JS `Map` from teacher name to { teacher, score }

  datatype ScoreEntry = ScoreEntry(teacher: Teacher, score: int)

  /** The entries in key-insertion order; each entry's key is its teacher's name. */
  type ScoreTable = seq<ScoreEntry>

  ghost predicate ValidTable(t: ScoreTable) {
    forall i, j :: 0 <= i < j < |t| ==> t[i].teacher.name != t[j].teacher.name
  }

  function KeysOf(t: ScoreTable): (r: seq<string>)
    ensures |r| == |t| && forall i :: 0 <= i < |t| ==> r[i] == t[i].teacher.name
  {
    seq(|t|, i requires 0 <= i < |t| => t[i].teacher.name)
  }

  /** The position of `name`'s entry. */
  function FindEntry(t: ScoreTable, name: string): (r: Option<nat>)
    ensures r.Some? ==> r.value < |t| && t[r.value].teacher.name == name
    ensures r.Some? ==> forall j :: 0 <= j < r.value ==> t[j].teacher.name != name
    ensures r.None? <==> forall j :: 0 <= j < |t| ==> t[j].teacher.name != name
  {
    if t == [] then None
    else if t[0].teacher.name == name then Some(0)
    else
      match FindEntry(t[1..], name)
      case None => None
      case Some(i) => Some(i + 1)
  }

  /** `scores.set(teacher.name, entry)`: a new key goes last, a known key keeps its place. */
  function Put(t: ScoreTable, e: ScoreEntry): (r: ScoreTable)
    ensures ValidTable(t) ==> ValidTable(r)
    ensures KeysOf(r) == if e.teacher.name in KeysOf(t) then KeysOf(t) else KeysOf(t) + [e.teacher.name]
  {
    match FindEntry(t, e.teacher.name)
    case Some(i) =>
      assert KeysOf(t[i := e]) == KeysOf(t);
      assert e.teacher.name in KeysOf(t) by { assert KeysOf(t)[i] == e.teacher.name; }
      t[i := e]
    case None =>
      assert KeysOf(t + [e]) == KeysOf(t) + [e.teacher.name];
      t + [e]
  }

  /** `teacherScores.get(name)?.score || 0`. */
  function ScoreOf(t: ScoreTable, name: string): int {
    match FindEntry(t, name)
    case Some(i) => t[i].score
    case None => 0
  }

  /** `const s = teacherScores.get(name); if (s) s.score += delta`. */
  function Adjust(t: ScoreTable, name: string, delta: int): (r: ScoreTable)
    ensures |r| == |t| && (ValidTable(t) ==> ValidTable(r))
    ensures forall i :: 0 <= i < |t| ==> r[i].teacher == t[i].teacher
    ensures ValidTable(t) ==> forall i :: 0 <= i < |t| ==>
      r[i].score == t[i].score + (if t[i].teacher.name == name then delta else 0)
  {
    match FindEntry(t, name)
    case Some(i) => t[i := t[i].(score := t[i].score + delta)]
    case None => t
  }

  /** `Array.from(teacherScores.values()).map(ts => ts.teacher)`. */
  function Candidates(t: ScoreTable): (r: seq<Teacher>)
    ensures |r| == |t| && forall i :: 0 <= i < |t| ==> r[i] == t[i].teacher
  {
    seq(|t|, i requires 0 <= i < |t| => t[i].teacher)
  }

  // ---------------------------------------------------------------------------
  // initializeTeacherScores

  /** The sum of the recorded minutes over every entry of the history record. */
  ghost function TotalDuration(h: HistoricalStats): int
    decreases |h.Keys|
  {
    if h == map[] then 0
    else
      var k :| k in h;
      h[k].duration + TotalDuration(h - {k})
  }

  /** The total does not depend on which entry is taken first. */
  lemma {:induction false} TotalDurationRemove(h: HistoricalStats, k: string)
    requires k in h
    ensures TotalDuration(h) == h[k].duration + TotalDuration(h - {k})
    decreases |h.Keys|
  {
    var k' :| k' in h && TotalDuration(h) == h[k'].duration + TotalDuration(h - {k'});
    if k' != k {
      TotalDurationRemove(h - {k'}, k);
      TotalDurationRemove(h - {k}, k');
      assert h - {k'} - {k} == h - {k} - {k'};
    }
  }

  /** `Object.values(historicalStats).reduce((sum, stat) => sum + stat.duration, 0)`. */
  method SumHistory(h: HistoricalStats) returns (total: int)
    ensures total == TotalDuration(h)
  {
    total := 0;
    var rest := h;
    while rest != map[]
      invariant total + TotalDuration(rest) == TotalDuration(h)
      decreases |rest.Keys|
    {
      var k :| k in rest;
      TotalDurationRemove(rest, k);
      total := total + rest[k].duration;
      rest := rest - {k};
    }
  }

  /**
   * The starting score of a teacher with history `hist`, where `total` is the
   * sum of all recorded minutes and `n` the length of the teacher list; the
   * average `total / n` is compared by cross-multiplying.
   */
  function BaseScore(hist: Load, total: int, n: nat, prefs: Preferences): int {
    100
    + (if !prefs.balanceWorkload then 0
       else if hist.duration * n < total then 20
       else if 2 * hist.duration * n > 3 * total then -15
       else 0)
    + (if prefs.prioritizeExperience && hist.count > 10 then 10 else 0)
  }

  /**
   * The cross-multiplied tests are the source's comparisons with the average:
   * `duration < avg` and `duration > avg * 1.5`.
   */
  lemma AverageComparisons(d: int, total: int, n: nat)
    requires n > 0
    ensures d * n < total <==> (d as real) < (total as real) / (n as real)
    ensures 2 * d * n > 3 * total <==> (d as real) > (total as real) / (n as real) * 1.5
  {
    var avg := (total as real) / (n as real);
    assert avg * (n as real) == total as real;
    assert (d * n) as real == (d as real) * (n as real);
    if d * n < total {
      assert (d as real) * (n as real) < avg * (n as real);
    }
    if (d as real) < avg {
      assert (d as real) * (n as real) < avg * (n as real);
    }
    if 2 * d * n > 3 * total {
      assert (d as real) * (n as real) * 2.0 > avg * (n as real) * 3.0;
    }
    if (d as real) > avg * 1.5 {
      assert (d as real) * (n as real) > avg * 1.5 * (n as real);
    }
  }

  /** With balancing on and experience off, the base score is 120, 85 or 100 according to the average. */
  lemma BaseScoreCases(hist: Load, total: int, n: nat, prefs: Preferences)
    requires n > 0
    ensures !prefs.balanceWorkload && !prefs.prioritizeExperience ==> BaseScore(hist, total, n, prefs) == 100
    ensures prefs.balanceWorkload && (hist.duration as real) < (total as real) / (n as real)
            ==> BaseScore(hist, total, n, prefs) == 120 + (if prefs.prioritizeExperience && hist.count > 10 then 10 else 0)
    ensures prefs.balanceWorkload && total >= 0 && (hist.duration as real) > (total as real) / (n as real) * 1.5
            ==> BaseScore(hist, total, n, prefs) == 85 + (if prefs.prioritizeExperience && hist.count > 10 then 10 else 0)
  {
    AverageComparisons(hist.duration, total, n);
    if prefs.balanceWorkload && total >= 0 && (hist.duration as real) > (total as real) / (n as real) * 1.5 {
      var avg := (total as real) / (n as real);
      assert avg >= 0.0;
      assert !((hist.duration as real) < avg);
    }
  }

  /** The table after the first `|ts|` iterations of the `forEach` over a list of `n` teachers. */
  function InitialScoresOver(ts: seq<Teacher>, h: HistoricalStats, total: int, n: nat, prefs: Preferences): ScoreTable
    decreases |ts|
  {
    if ts == [] then []
    else
      var t := ts[|ts| - 1];
      Put(InitialScoresOver(ts[..|ts| - 1], h, total, n, prefs), ScoreEntry(t, BaseScore(HistoryOf(h, t.name), total, n, prefs)))
  }

  /** The keys are the distinct names, in order of first appearance. */
  lemma {:induction false} InitialScoresKeys(ts: seq<Teacher>, h: HistoricalStats, total: int, n: nat, prefs: Preferences)
    ensures ValidTable(InitialScoresOver(ts, h, total, n, prefs))
    ensures KeysOf(InitialScoresOver(ts, h, total, n, prefs)) == Distinct(NamesOf(ts))
    decreases |ts|
  {
    if ts != [] {
      var init, t := ts[..|ts| - 1], ts[|ts| - 1];
      InitialScoresKeys(init, h, total, n, prefs);
      NameListInit(ts);
      var e := ScoreEntry(t, BaseScore(HistoryOf(h, t.name), total, n, prefs));
      assert InitialScoresOver(ts, h, total, n, prefs) == Put(InitialScoresOver(init, h, total, n, prefs), e);
      PutKeys(InitialScoresOver(init, h, total, n, prefs), NamesOf(init), e);
    }
  }

  lemma NameListInit(ts: seq<Teacher>)
    requires ts != []
    ensures NamesOf(ts) == NamesOf(ts[..|ts| - 1]) + [ts[|ts| - 1].name]
  {
    var l, r := NamesOf(ts), NamesOf(ts[..|ts| - 1]) + [ts[|ts| - 1].name];
    assert |l| == |r|;
    forall i | 0 <= i < |l| ensures l[i] == r[i] {
      if i < |ts| - 1 {
        assert r[i] == NamesOf(ts[..|ts| - 1])[i];
      }
    }
  }

  /** Putting an entry into a table keyed by the distinct names adds its name to those names. */
  lemma PutKeys(prev: ScoreTable, names: seq<string>, e: ScoreEntry)
    requires ValidTable(prev) && KeysOf(prev) == Distinct(names)
    ensures ValidTable(Put(prev, e)) && KeysOf(Put(prev, e)) == Distinct(names + [e.teacher.name])
  {
    DistinctAppendOne(names, e.teacher.name);
  }

  /** The teacher stored under a name is the last one of that name in the list. */
  ghost predicate LastOfName(ts: seq<Teacher>, t: Teacher) {
    exists j :: 0 <= j < |ts| && ts[j] == t && forall k :: j < k < |ts| ==> ts[k].name != t.name
  }

  /** Each entry holds the last teacher of its name and the base score of that name's history. */
  ghost predicate EntriesFrom(table: ScoreTable, ts: seq<Teacher>, h: HistoricalStats, total: int, n: nat, prefs: Preferences) {
    forall i :: 0 <= i < |table| ==>
      table[i].score == BaseScore(HistoryOf(h, table[i].teacher.name), total, n, prefs) && LastOfName(ts, table[i].teacher)
  }

  lemma {:induction false} InitialScoresEntries(ts: seq<Teacher>, h: HistoricalStats, total: int, n: nat, prefs: Preferences)
    ensures EntriesFrom(InitialScoresOver(ts, h, total, n, prefs), ts, h, total, n, prefs)
    decreases |ts|
  {
    if ts != [] {
      var init, t := ts[..|ts| - 1], ts[|ts| - 1];
      assert ts == init + [t];
      InitialScoresEntries(init, h, total, n, prefs);
      InitialScoresKeys(init, h, total, n, prefs);
      PutEntries(InitialScoresOver(init, h, total, n, prefs), init, t, h, total, n, prefs);
    }
  }

  lemma PutEntries(prev: ScoreTable, init: seq<Teacher>, t: Teacher, h: HistoricalStats, total: int, n: nat, prefs: Preferences)
    requires ValidTable(prev) && EntriesFrom(prev, init, h, total, n, prefs)
    ensures EntriesFrom(Put(prev, ScoreEntry(t, BaseScore(HistoryOf(h, t.name), total, n, prefs))), init + [t], h, total, n, prefs)
  {
    var e := ScoreEntry(t, BaseScore(HistoryOf(h, t.name), total, n, prefs));
    var r := Put(prev, e);
    forall i | 0 <= i < |r|
      ensures r[i].score == BaseScore(HistoryOf(h, r[i].teacher.name), total, n, prefs) && LastOfName(init + [t], r[i].teacher)
    {
      if r[i] == e {
        assert (init + [t])[|init|] == r[i].teacher;
      } else {
        PutOther(prev, e, i);
        LastOfNameSnoc(init, t, prev[i].teacher);
      }
    }
  }

  lemma LastOfNameSnoc(ts: seq<Teacher>, t: Teacher, u: Teacher)
    requires LastOfName(ts, u) && t.name != u.name
    ensures LastOfName(ts + [t], u)
  {
    var j :| 0 <= j < |ts| && ts[j] == u && forall k :: j < k < |ts| ==> ts[k].name != u.name;
    assert (ts + [t])[j] == u;
  }

  lemma PutOther(t: ScoreTable, e: ScoreEntry, i: nat)
    requires ValidTable(t) && i < |Put(t, e)| && Put(t, e)[i] != e
    ensures i < |t| && Put(t, e)[i] == t[i] && t[i].teacher.name != e.teacher.name
  {
    match FindEntry(t, e.teacher.name)
    case Some(k) =>
    case None =>
  }

  // ---------------------------------------------------------------------------
  // handleMandatoryAssignments

  /** `schedules.find(s => s.id.includes(key) && s.location === location)`. */
  function FindContaining(schedules: seq<Schedule>, key: string, location: string): (r: Option<nat>)
    ensures r.Some? ==> r.value < |schedules| && Contains(schedules[r.value].id, key) && schedules[r.value].location == location
    ensures r.Some? ==> forall j :: 0 <= j < r.value ==> !(Contains(schedules[j].id, key) && schedules[j].location == location)
    ensures r.None? <==> forall j :: 0 <= j < |schedules| ==> !(Contains(schedules[j].id, key) && schedules[j].location == location)
  {
    if schedules == [] then None
    else if Contains(schedules[0].id, key) && schedules[0].location == location then Some(0)
    else
      match FindContaining(schedules[1..], key, location)
      case None => None
      case Some(i) => Some(i + 1)
  }

  /** The assignments so far and the score table. */
  datatype AdvRun = AdvRun(assignments: seq<Assignment>, table: ScoreTable)

  function ForcedStep(r: AdvRun, schedules: seq<Schedule>, t: ForcedTask): AdvRun {
    match FindContaining(schedules, t.sessionId, t.location)
    case None => r
    case Some(i) => AdvRun(r.assignments + [Place(schedules[i], t.teacher, Forced)], Adjust(r.table, t.teacher, -5))
  }

  function DesignatedStep(r: AdvRun, schedules: seq<Schedule>, t: DesignatedTask): AdvRun {
    match FindContaining(schedules, t.slotId, t.location)
    case None => r
    case Some(i) => AdvRun(r.assignments + [Place(schedules[i], t.teacher, Designated)], Adjust(r.table, t.teacher, 5))
  }

  function ForcedPhase(r: AdvRun, schedules: seq<Schedule>, ts: seq<ForcedTask>): AdvRun
    decreases |ts|
  {
    if ts == [] then r else ForcedStep(ForcedPhase(r, schedules, ts[..|ts| - 1]), schedules, ts[|ts| - 1])
  }

  function DesignatedPhase(r: AdvRun, schedules: seq<Schedule>, ts: seq<DesignatedTask>): AdvRun
    decreases |ts|
  {
    if ts == [] then r else DesignatedStep(DesignatedPhase(r, schedules, ts[..|ts| - 1]), schedules, ts[|ts| - 1])
  }

  function Matched(schedules: seq<Schedule>): ForcedTask -> bool {
    (t: ForcedTask) => FindContaining(schedules, t.sessionId, t.location).Some?
  }

  /** Every forced task whose session id occurs in some schedule id of its room is placed, unconditionally, as `forced`. */
  lemma {:induction false} ForcedPhasePlaces(r: AdvRun, schedules: seq<Schedule>, ts: seq<ForcedTask>)
    ensures |ForcedPhase(r, schedules, ts).assignments| == |r.assignments| + CountWhere(ts, Matched(schedules))
    ensures ForcedPhase(r, schedules, ts).assignments[..|r.assignments|] == r.assignments
    ensures forall k :: |r.assignments| <= k < |ForcedPhase(r, schedules, ts).assignments| ==>
      ForcedPhase(r, schedules, ts).assignments[k].assignedBy == Forced
    decreases |ts|
  {
    if ts != [] {
      ForcedPhasePlaces(r, schedules, ts[..|ts| - 1]);
    }
  }

  // ---------------------------------------------------------------------------
  // calculateSlotSpecificScore, calculateDailyHours, getEligibleTeachersAdvanced

  /** A same-day assignment of the teacher ends within 30 minutes of the slot's start, before or after. */
  predicate EndsNear(a: Assignment, name: string, slot: Schedule) {
    a.teacher == name && a.date == slot.date
    && -30 <= ClockMinutes(a.endTime) - ClockMinutes(slot.startTime) <= 30
  }

  /** `parseInt(slot.startTime.split(':')[0])` lies in 8..10. */
  predicate MorningStart(startTime: string) {
    var hour := ParseIntAuto(Split(startTime, ':')[0]);
    hour.Some? && 8 <= hour.value <= 10
  }

  function SlotScore(t: Teacher, slot: Schedule, acc: seq<Assignment>, prefs: Preferences): int {
    (if prefs.minimizeConsecutive && exists j :: 0 <= j < |acc| && EndsNear(acc[j], t.name, slot) then -20 else 0)
    + (if prefs.respectDepartments && t.department != "" then 5 else 0)
    + (if MorningStart(slot.startTime) then 5 else 0)
  }

  /** For a zero-padded start time the morning bonus is given exactly from 08:00 to 10:59. */
  lemma MorningStartClock(startTime: string)
    requires IsClockText(startTime) && startTime[3] <= '5'
    ensures MorningStart(startTime) <==> 8 * 60 <= ClockMinutes(startTime) < 11 * 60
  {
    var hh := startTime[..2];
    ClockHourField(startTime);
    TwoDigitsParse(hh);
    assert hh[0] == startTime[0] && hh[1] == startTime[1];
    var hour := DigitValue(startTime[0]) * 10 + DigitValue(startTime[1]);
    var mins := DigitValue(startTime[3]) * 10 + DigitValue(startTime[4]);
    assert MorningStart(startTime) <==> 8 <= hour <= 10;
    assert 0 <= mins < 60;
    assert ClockMinutes(startTime) == hour * 60 + mins;
  }

  /** The text before the colon of an `HH:MM` text is its two hour digits. */
  lemma ClockHourField(s: string)
    requires IsClockText(s)
    ensures Split(s, ':')[0] == s[..2]
  {
    assert s[1..][1..][0] == ':';
    assert Split(s[1..][1..], ':')[0] == [];
    assert Split(s[1..], ':')[0] == [s[1]];
    assert Split(s, ':')[0] == [s[0]] + [s[1]];
  }

  /** `parseInt` reads two digits as their decimal value. */
  lemma TwoDigitsParse(hh: string)
    requires |hh| == 2 && IsDigit(hh[0]) && IsDigit(hh[1])
    ensures ParseIntAuto(hh) == Some(DigitValue(hh[0]) * 10 + DigitValue(hh[1]))
  {
    assert AllDigits(hh);
    ParseIntAutoDigits(hh);
    DigitsValueShort(hh);
    var v := DigitsValue(hh);
    assert ParseIntAuto(hh) == Some(v);
    assert v == DigitValue(hh[0]) * 10 + DigitValue(hh[1]);
  }

  /** The slot score is one of the combinations of -20, +5 and +5. */
  lemma SlotScoreRange(t: Teacher, slot: Schedule, acc: seq<Assignment>, prefs: Preferences)
    ensures -20 <= SlotScore(t, slot, acc, prefs) <= 10
    ensures !prefs.minimizeConsecutive && !prefs.respectDepartments ==>
      SlotScore(t, slot, acc, prefs) == (if MorningStart(slot.startTime) then 5 else 0)
  {
  }

  function DayMinutes(name: string, date: string): Assignment -> int {
    (a: Assignment) => if a.teacher == name && a.date == date then Duration(a.startTime, a.endTime) else 0
  }

  /** `calculateDailyHours`, in minutes. */
  function DailyMinutes(name: string, date: string, acc: seq<Assignment>): int {
    SumOf(acc, DayMinutes(name, date))
  }

  /**
   * The test of `getEligibleTeachersAdvanced`; `dailyHours + slotHours >
   * maxDailyHours` is compared in minutes.
   */
  predicate AdvEligible(t: Teacher, slot: Schedule, acc: seq<Assignment>, excl: Exclusions, prefs: Preferences) {
    !Scheduling.Busy(acc, t.name, slot)
    && !ExcludedFrom(excl, t.name, slot.date, slot.startTime, slot.endTime, slot.location)
    && (prefs.maxDailyHours == 0
        || DailyMinutes(t.name, slot.date, acc) + Duration(slot.startTime, slot.endTime) <= 60 * prefs.maxDailyHours)
  }

  function AdvEligibility(slot: Schedule, acc: seq<Assignment>, excl: Exclusions, prefs: Preferences): Teacher -> bool {
    (t: Teacher) => AdvEligible(t, slot, acc, excl, prefs)
  }

  /** The sort `(a, b) => b.totalScore - a.totalScore`: higher totals first. */
  function TotalKey(table: ScoreTable, slot: Schedule, acc: seq<Assignment>, prefs: Preferences): Teacher -> seq<int> {
    (t: Teacher) => [-(ScoreOf(table, t.name) + SlotScore(t, slot, acc, prefs))]
  }

  // ---------------------------------------------------------------------------
  // optimizeAssignments

  function AdvFillStep(r: AdvRun, excl: Exclusions, prefs: Preferences, slot: Schedule): (r': AdvRun)
    ensures |r'.assignments| == |r.assignments| + 1 && r'.assignments[..|r.assignments|] == r.assignments
    ensures r'.assignments[|r.assignments|].assignedBy == Auto
  {
    var eligible := Filter(Candidates(r.table), AdvEligibility(slot, r.assignments, excl, prefs));
    if |eligible| > 0 then
      var chosen := SortBy(eligible, TotalKey(r.table, slot, r.assignments, prefs))[0];
      AdvRun(r.assignments + [Place(slot, chosen.name, Auto)], Adjust(r.table, chosen.name, -10))
    else
      AdvRun(r.assignments + [Place(slot, UnassignableMarker, Auto)], r.table)
  }

  function AdvFillPhase(r: AdvRun, excl: Exclusions, prefs: Preferences, slots: seq<Schedule>): (r': AdvRun)
    ensures |r'.assignments| == |r.assignments| + |slots|
    decreases |slots|
  {
    if slots == [] then r else AdvFillStep(AdvFillPhase(r, excl, prefs, slots[..|slots| - 1]), excl, prefs, slots[|slots| - 1])
  }

  /**
   * One fill appends an `auto` copy of the demand. Either no candidate is
   * eligible, the copy reads `!!无法分配!!` and no score changes; or it names
   * the eligible candidate with the highest base-plus-slot score, the earliest
   * in table order among equals, and that teacher's stored score drops by 10.
   */
  ghost predicate AdvFillChoice(before: AdvRun, excl: Exclusions, prefs: Preferences, slot: Schedule, after: AdvRun) {
    var cands := Candidates(before.table);
    |after.assignments| == |before.assignments| + 1
    && var a := after.assignments[|before.assignments|];
    a == Place(slot, a.teacher, Auto)
    && ((a.teacher == UnassignableMarker && after.table == before.table
         && forall j :: 0 <= j < |cands| ==> !AdvEligible(cands[j], slot, before.assignments, excl, prefs))
        || (exists i :: 0 <= i < |cands| && cands[i].name == a.teacher
              && FirstMinimumAt(cands, AdvEligibility(slot, before.assignments, excl, prefs),
                                TotalKey(before.table, slot, before.assignments, prefs), i)
              && after.table == Adjust(before.table, a.teacher, -10)))
  }

  lemma AdvFillStepChoice(r: AdvRun, excl: Exclusions, prefs: Preferences, slot: Schedule)
    ensures AdvFillChoice(r, excl, prefs, slot, AdvFillStep(r, excl, prefs, slot))
  {
    var cands := Candidates(r.table);
    var p := AdvEligibility(slot, r.assignments, excl, prefs);
    if |Filter(cands, p)| > 0 {
      SortFilterHead(cands, p, TotalKey(r.table, slot, r.assignments, prefs));
    } else {
      forall j | 0 <= j < |cands| ensures !AdvEligible(cands[j], slot, r.assignments, excl, prefs) {
        FilterMember(cands, p, cands[j]);
      }
    }
  }

  /** A larger total is preferred: `FirstMinimumAt` on `TotalKey` is a first maximum of the total score. */
  lemma TotalKeyOrder(table: ScoreTable, slot: Schedule, acc: seq<Assignment>, prefs: Preferences, x: Teacher, y: Teacher)
    ensures LexLe(TotalKey(table, slot, acc, prefs)(x), TotalKey(table, slot, acc, prefs)(y))
        <==> ScoreOf(table, x.name) + SlotScore(x, slot, acc, prefs) >= ScoreOf(table, y.name) + SlotScore(y, slot, acc, prefs)
  {
    var kx, ky := TotalKey(table, slot, acc, prefs)(x), TotalKey(table, slot, acc, prefs)(y);
    assert kx[1..] == [] && ky[1..] == [];
  }

  lemma AdvFillPhaseSnoc(r: AdvRun, excl: Exclusions, prefs: Preferences, slots: seq<Schedule>, j: nat)
    requires j < |slots|
    ensures AdvFillPhase(r, excl, prefs, slots[..j + 1]) == AdvFillStep(AdvFillPhase(r, excl, prefs, slots[..j]), excl, prefs, slots[j])
  {
    assert slots[..j + 1][..j] == slots[..j];
  }

  // ---------------------------------------------------------------------------
  // Score bookkeeping

  /** The score change an assignment causes to `name`: forced -5, designated +5, auto -10. */
  function ScoreDelta(name: string): Assignment -> int {
    (a: Assignment) =>
      if a.teacher != name then 0
      else match a.assignedBy
        case Forced => -5
        case Designated => 5
        case Auto => -10
        case Manual => 0
  }

  /** Each entry's score is its starting score plus the changes caused by the assignments so far. */
  ghost predicate ScoresBooked(table: ScoreTable, init: ScoreTable, acc: seq<Assignment>) {
    |table| == |init|
    && forall i :: 0 <= i < |init| ==>
         table[i].teacher == init[i].teacher
         && (init[i].teacher.name != UnassignableMarker ==> table[i].score == init[i].score + SumOf(acc, ScoreDelta(init[i].teacher.name)))
  }

  /** A placement moves the placed teacher's score by its delta and keeps the book. */
  lemma SnocAdjustBooked(table: ScoreTable, init: ScoreTable, acc: seq<Assignment>, a: Assignment)
    requires ScoresBooked(table, init, acc) && ValidTable(table)
    ensures ScoresBooked(Adjust(table, a.teacher, ScoreDelta(a.teacher)(a)), init, acc + [a])
  {
    forall i | 0 <= i < |init| && init[i].teacher.name != UnassignableMarker
      ensures Adjust(table, a.teacher, ScoreDelta(a.teacher)(a))[i].score == init[i].score + SumOf(acc + [a], ScoreDelta(init[i].teacher.name))
    {
      assert (acc + [a])[..|acc|] == acc;
    }
  }

  /** An unassignable marker changes no score. */
  lemma SnocMarkerBooked(table: ScoreTable, init: ScoreTable, acc: seq<Assignment>, a: Assignment)
    requires ScoresBooked(table, init, acc) && a.teacher == UnassignableMarker
    ensures ScoresBooked(table, init, acc + [a])
  {
    forall i | 0 <= i < |init| && init[i].teacher.name != UnassignableMarker
      ensures table[i].score == init[i].score + SumOf(acc + [a], ScoreDelta(init[i].teacher.name))
    {
      assert (acc + [a])[..|acc|] == acc;
    }
  }

  lemma {:induction false} ForcedPhaseBooked(r: AdvRun, init: ScoreTable, schedules: seq<Schedule>, ts: seq<ForcedTask>)
    requires ScoresBooked(r.table, init, r.assignments) && ValidTable(r.table)
    ensures ScoresBooked(ForcedPhase(r, schedules, ts).table, init, ForcedPhase(r, schedules, ts).assignments)
    ensures ValidTable(ForcedPhase(r, schedules, ts).table)
    decreases |ts|
  {
    if ts != [] {
      var prev := ForcedPhase(r, schedules, ts[..|ts| - 1]);
      ForcedPhaseBooked(r, init, schedules, ts[..|ts| - 1]);
      var t := ts[|ts| - 1];
      match FindContaining(schedules, t.sessionId, t.location)
      case None =>
      case Some(i) =>
        SnocAdjustBooked(prev.table, init, prev.assignments, Place(schedules[i], t.teacher, Forced));
    }
  }

  lemma {:induction false} DesignatedPhaseBooked(r: AdvRun, init: ScoreTable, schedules: seq<Schedule>, ts: seq<DesignatedTask>)
    requires ScoresBooked(r.table, init, r.assignments) && ValidTable(r.table)
    ensures ScoresBooked(DesignatedPhase(r, schedules, ts).table, init, DesignatedPhase(r, schedules, ts).assignments)
    ensures ValidTable(DesignatedPhase(r, schedules, ts).table)
    decreases |ts|
  {
    if ts != [] {
      var prev := DesignatedPhase(r, schedules, ts[..|ts| - 1]);
      DesignatedPhaseBooked(r, init, schedules, ts[..|ts| - 1]);
      var t := ts[|ts| - 1];
      match FindContaining(schedules, t.slotId, t.location)
      case None =>
      case Some(i) =>
        SnocAdjustBooked(prev.table, init, prev.assignments, Place(schedules[i], t.teacher, Designated));
    }
  }

  lemma {:induction false} AdvFillPhaseBooked(r: AdvRun, init: ScoreTable, excl: Exclusions, prefs: Preferences, slots: seq<Schedule>)
    requires ScoresBooked(r.table, init, r.assignments) && ValidTable(r.table)
    ensures ScoresBooked(AdvFillPhase(r, excl, prefs, slots).table, init, AdvFillPhase(r, excl, prefs, slots).assignments)
    ensures ValidTable(AdvFillPhase(r, excl, prefs, slots).table)
    decreases |slots|
  {
    if slots != [] {
      var prev := AdvFillPhase(r, excl, prefs, slots[..|slots| - 1]);
      AdvFillPhaseBooked(r, init, excl, prefs, slots[..|slots| - 1]);
      var slot := slots[|slots| - 1];
      var eligible := Filter(Candidates(prev.table), AdvEligibility(slot, prev.assignments, excl, prefs));
      if |eligible| > 0 {
        var chosen := SortBy(eligible, TotalKey(prev.table, slot, prev.assignments, prefs))[0];
        SnocAdjustBooked(prev.table, init, prev.assignments, Place(slot, chosen.name, Auto));
      } else {
        SnocMarkerBooked(prev.table, init, prev.assignments, Place(slot, UnassignableMarker, Auto));
      }
    }
  }

  // ---------------------------------------------------------------------------
  // The whole engine

  /** `balanceWorkloadOptimization`: minutes per person, heaviest first; the assignments are only read. */
  method BalanceWorkloadOptimization(assignments: seq<Assignment>) returns (workloads: seq<(string, int)>)
    ensures forall i, j :: 0 <= i < j < |workloads| ==> workloads[i].1 >= workloads[j].1
    ensures forall i :: 0 <= i < |workloads| ==>
      !IsMarker(workloads[i].0) && workloads[i].1 == CurrentLoad(assignments, workloads[i].0).duration
    ensures forall k :: 0 <= k < |assignments| && !IsMarker(assignments[k].teacher) ==>
      exists i :: 0 <= i < |workloads| && workloads[i].0 == assignments[k].teacher
  {
    var names, minutes := SumMinutes(assignments);
    workloads := RankByMinutes(names, minutes);
    forall k | 0 <= k < |assignments| && !IsMarker(assignments[k].teacher)
      ensures exists i :: 0 <= i < |workloads| && workloads[i].0 == assignments[k].teacher
    {
      DutyCounted(assignments, k);
    }
  }

  /** The sort of `balanceWorkloadOptimization`: every name with its minutes, heaviest first. */
  method RankByMinutes(names: seq<string>, minutes: map<string, int>) returns (workloads: seq<(string, int)>)
    requires forall n :: n in names ==> n in minutes
    ensures forall i, j :: 0 <= i < j < |workloads| ==> workloads[i].1 >= workloads[j].1
    ensures forall i :: 0 <= i < |workloads| ==> workloads[i].0 in names && workloads[i].1 == minutes[workloads[i].0]
    ensures forall n :: n in names ==> exists i :: 0 <= i < |workloads| && workloads[i].0 == n
  {
    var entries := seq(|names|, i requires 0 <= i < |names| => (names[i], minutes[names[i]]));
    workloads := SortBy(entries, HeavierFirst);
    SortBySorted(entries, HeavierFirst);
    SortByPermutation(entries, HeavierFirst);
    HeavierFirstDescending(workloads);
    RankedEntries(names, minutes, entries, workloads);
  }

  /** Ascending by `HeavierFirst` is descending by minutes. */
  lemma HeavierFirstDescending(w: seq<(string, int)>)
    requires SortedBy(w, HeavierFirst)
    ensures forall i, j :: 0 <= i < j < |w| ==> w[i].1 >= w[j].1
  {
    forall i, j | 0 <= i < j < |w| ensures w[i].1 >= w[j].1 {
      assert LexLe(HeavierFirst(w[i]), HeavierFirst(w[j]));
      assert HeavierFirst(w[i])[1..] == [];
    }
  }

  /** A permutation of the name/minutes entries holds each name once with its minutes. */
  lemma RankedEntries(names: seq<string>, minutes: map<string, int>, entries: seq<(string, int)>, w: seq<(string, int)>)
    requires forall n :: n in names ==> n in minutes
    requires |entries| == |names|
    requires forall i :: 0 <= i < |names| ==> entries[i] == (names[i], minutes[names[i]])
    requires multiset(w) == multiset(entries)
    ensures forall i :: 0 <= i < |w| ==> w[i].0 in names && w[i].1 == minutes[w[i].0]
    ensures forall n :: n in names ==> exists i :: 0 <= i < |w| && w[i].0 == n
  {
    forall i | 0 <= i < |w| ensures w[i].0 in names && w[i].1 == minutes[w[i].0] {
      assert w[i] in multiset(w);
      assert w[i] in entries;
    }
    forall n | n in names ensures exists i :: 0 <= i < |w| && w[i].0 == n {
      var i :| 0 <= i < |names| && names[i] == n;
      assert entries[i] in multiset(w);
    }
  }

  function HeavierFirst(e: (string, int)): seq<int> { [-e.1] }

  /**
   * What the `forEach` of `balanceWorkloadOptimization` has built after
   * reading `seen`: the names with a duty so far, each with its minutes.
   */
  ghost predicate MinutesOf(names: seq<string>, minutes: map<string, int>, seen: seq<Assignment>) {
    (forall n :: n in names <==> CurrentLoad(seen, n).count > 0)
    && forall n :: n in names ==> !IsMarker(n) && n in minutes && minutes[n] == CurrentLoad(seen, n).duration
  }

  /** The `forEach`: the people of the assignments, first-seen order, with their minutes. */
  method SumMinutes(assignments: seq<Assignment>) returns (names: seq<string>, minutes: map<string, int>)
    ensures MinutesOf(names, minutes, assignments)
  {
    names, minutes := [], map[];
    for k := 0 to |assignments|
      invariant MinutesOf(names, minutes, assignments[..k])
    {
      assert assignments[..k + 1] == assignments[..k] + [assignments[k]];
      names, minutes := AddMinutes(names, minutes, assignments[..k], assignments[k]);
    }
    assert assignments[..|assignments|] == assignments;
  }

  /** The body of the `forEach`. */
  method AddMinutes(names: seq<string>, minutes: map<string, int>, ghost seen: seq<Assignment>, a: Assignment)
    returns (names': seq<string>, minutes': map<string, int>)
    requires MinutesOf(names, minutes, seen)
    ensures MinutesOf(names', minutes', seen + [a])
  {
    names', minutes' := names, minutes;
    if !IsMarker(a.teacher) {
      var current := if a.teacher in minutes && a.teacher in names then minutes[a.teacher] else 0;
      if a.teacher !in names {
        names' := names + [a.teacher];
      }
      minutes' := minutes[a.teacher := current + Duration(a.startTime, a.endTime)];
    }
    var next := seen + [a];
    forall n ensures n in names' <==> CurrentLoad(next, n).count > 0 {
      CurrentLoadSnoc(seen, a, n);
      DutyCountAtLeastZero(seen, n);
    }
    forall n | n in names' ensures !IsMarker(n) && n in minutes' && minutes'[n] == CurrentLoad(next, n).duration {
      CurrentLoadSnoc(seen, a, n);
      DutyCountAtLeastZero(seen, n);
    }
  }

  /** Duty counts are never negative, and a name with no duty has no minutes. */
  lemma {:induction false} DutyCountAtLeastZero(acc: seq<Assignment>, n: string)
    ensures CurrentLoad(acc, n).count >= 0
    ensures CurrentLoad(acc, n).count == 0 ==> CurrentLoad(acc, n) == Load(0, 0)
  {
    if acc != [] {
      var init := acc[..|acc| - 1];
      assert acc == init + [acc[|acc| - 1]];
      DutyCountAtLeastZero(init, n);
      CurrentLoadSnoc(init, acc[|acc| - 1], n);
    }
  }

  /** Every person named in the assignments has at least one duty. */
  lemma {:induction false} DutyCounted(acc: seq<Assignment>, k: nat)
    requires k < |acc| && !IsMarker(acc[k].teacher)
    ensures CurrentLoad(acc, acc[k].teacher).count > 0
  {
    var init, last := acc[..|acc| - 1], acc[|acc| - 1];
    assert acc == init + [last];
    CurrentLoadSnoc(init, last, acc[k].teacher);
    DutyCountAtLeastZero(init, acc[k].teacher);
    if k < |init| {
      assert init[k] == acc[k];
      DutyCounted(init, k);
    }
  }

  ghost function AdvInitial(teachers: seq<Teacher>, h: HistoricalStats, prefs: Preferences): ScoreTable {
    InitialScoresOver(teachers, h, TotalDuration(h), |teachers|, prefs)
  }

  ghost function AdvMandatory(teachers: seq<Teacher>, schedules: seq<Schedule>, tasks: SpecialTasks,
                              h: HistoricalStats, prefs: Preferences): AdvRun {
    DesignatedPhase(ForcedPhase(AdvRun([], AdvInitial(teachers, h, prefs)), schedules, tasks.forced), schedules, tasks.designated)
  }

  function InstantKey(s: Schedule): seq<int> { Instant(s.date, s.startTime) }

  ghost function AdvDemands(teachers: seq<Teacher>, schedules: seq<Schedule>, tasks: SpecialTasks,
                            h: HistoricalStats, prefs: Preferences): seq<Schedule> {
    SortBy(Scheduling.Demands(schedules, AdvMandatory(teachers, schedules, tasks, h, prefs).assignments), InstantKey)
  }

  /** The state after both phases, before the final sort. */
  ghost function AdvEngine(teachers: seq<Teacher>, schedules: seq<Schedule>, tasks: SpecialTasks, excl: Exclusions,
                           h: HistoricalStats, prefs: Preferences): AdvRun {
    AdvFillPhase(AdvMandatory(teachers, schedules, tasks, h, prefs), excl, prefs, AdvDemands(teachers, schedules, tasks, h, prefs))
  }

  /** `initializeTeacherScores`. */
  method InitializeTeacherScores(teachers: seq<Teacher>, h: HistoricalStats, prefs: Preferences) returns (table: ScoreTable)
    ensures table == AdvInitial(teachers, h, prefs)
  {
    var total := SumHistory(h);
    table := [];
    for i := 0 to |teachers|
      invariant table == InitialScoresOver(teachers[..i], h, total, |teachers|, prefs)
    {
      assert teachers[..i + 1][..i] == teachers[..i];
      var t := teachers[i];
      table := Put(table, ScoreEntry(t, BaseScore(HistoryOf(h, t.name), total, |teachers|, prefs)));
    }
    assert teachers[..|teachers|] == teachers;
  }

  /** `handleMandatoryAssignments`: forced tasks, then designated tasks. */
  method HandleMandatoryAssignments(schedules: seq<Schedule>, tasks: SpecialTasks, init: ScoreTable)
    returns (assignments: seq<Assignment>, table: ScoreTable)
    ensures AdvRun(assignments, table)
         == DesignatedPhase(ForcedPhase(AdvRun([], init), schedules, tasks.forced), schedules, tasks.designated)
  {
    assignments, table := [], init;
    for k := 0 to |tasks.forced|
      invariant AdvRun(assignments, table) == ForcedPhase(AdvRun([], init), schedules, tasks.forced[..k])
    {
      assert tasks.forced[..k + 1][..k] == tasks.forced[..k];
      var task := tasks.forced[k];
      var found := FindContaining(schedules, task.sessionId, task.location);
      if found.Some? {
        assignments := assignments + [Place(schedules[found.value], task.teacher, Forced)];
        table := Adjust(table, task.teacher, -5);
      }
    }
    assert tasks.forced[..|tasks.forced|] == tasks.forced;
    ghost var afterForced := AdvRun(assignments, table);
    for k := 0 to |tasks.designated|
      invariant AdvRun(assignments, table) == DesignatedPhase(afterForced, schedules, tasks.designated[..k])
    {
      assert tasks.designated[..k + 1][..k] == tasks.designated[..k];
      var task := tasks.designated[k];
      var found := FindContaining(schedules, task.slotId, task.location);
      if found.Some? {
        assignments := assignments + [Place(schedules[found.value], task.teacher, Designated)];
        table := Adjust(table, task.teacher, 5);
      }
    }
    assert tasks.designated[..|tasks.designated|] == tasks.designated;
  }

  /** `optimizeAssignments`: the open demands in start order, each given to the best eligible teacher. */
  method OptimizeAssignments(schedules: seq<Schedule>, assignments0: seq<Assignment>, table0: ScoreTable,
                             excl: Exclusions, prefs: Preferences)
    returns (assignments: seq<Assignment>, table: ScoreTable)
    ensures AdvRun(assignments, table)
         == AdvFillPhase(AdvRun(assignments0, table0), excl, prefs, SortBy(Scheduling.Demands(schedules, assignments0), InstantKey))
  {
    assignments, table := assignments0, table0;
    var remainingSlots := Scheduling.GetRemainingSlots(schedules, assignments);
    remainingSlots := SortBy(remainingSlots, InstantKey);
    for k := 0 to |remainingSlots|
      invariant AdvRun(assignments, table) == AdvFillPhase(AdvRun(assignments0, table0), excl, prefs, remainingSlots[..k])
    {
      AdvFillPhaseSnoc(AdvRun(assignments0, table0), excl, prefs, remainingSlots, k);
      ghost var prev := AdvRun(assignments, table);
      var slot := remainingSlots[k];
      var eligibleTeachers := Filter(Candidates(table), AdvEligibility(slot, assignments, excl, prefs));
      if |eligibleTeachers| > 0 {
        var scored := SortBy(eligibleTeachers, TotalKey(table, slot, assignments, prefs));
        var selected := scored[0];
        assignments := assignments + [Place(slot, selected.name, Auto)];
        table := Adjust(table, selected.name, -10);
      } else {
        assignments := assignments + [Place(slot, UnassignableMarker, Auto)];
      }
      assert AdvRun(assignments, table) == AdvFillStep(prev, excl, prefs, slot);
    }
    assert remainingSlots[..|remainingSlots|] == remainingSlots;
  }

  /**
   * `generateAdvancedAssignments`: the result holds exactly the assignments of
   * both phases, sorted by start date-time only, keeping placement order
   * among equal start times.
   */
  method GenerateAdvancedAssignments(teachers: seq<Teacher>, schedules: seq<Schedule>, tasks: SpecialTasks,
                                     excl: Exclusions, h: HistoricalStats, preferences: Option<Preferences>)
    returns (result: seq<Assignment>)
    ensures multiset(result) == multiset(AdvEngine(teachers, schedules, tasks, excl, h, Effective(preferences)).assignments)
    ensures SortedBy(result, StartInstant)
    ensures forall k :: Tied(result, StartInstant, k)
                     == Tied(AdvEngine(teachers, schedules, tasks, excl, h, Effective(preferences)).assignments, StartInstant, k)
  {
    var prefs := Effective(preferences);
    var table := InitializeTeacherScores(teachers, h, prefs);
    var assignments;
    assignments, table := HandleMandatoryAssignments(schedules, tasks, table);
    assignments, table := OptimizeAssignments(schedules, assignments, table, excl, prefs);
    // postProcessOptimization
    if prefs.balanceWorkload {
      var _ := BalanceWorkloadOptimization(assignments);
    }
    result := SortBy(assignments, StartInstant);
    SortByPermutation(assignments, StartInstant);
    SortBySorted(assignments, StartInstant);
    forall k ensures Tied(result, StartInstant, k) == Tied(assignments, StartInstant, k) {
      SortByStable(assignments, StartInstant, k);
    }
  }

  /**
   * At the end every teacher's stored score is the base score of their
   * history, minus 5 per forced placement, plus 5 per designated placement,
   * minus 10 per automatic placement.
   */
  lemma AdvEngineScores(teachers: seq<Teacher>, schedules: seq<Schedule>, tasks: SpecialTasks, excl: Exclusions,
                        h: HistoricalStats, prefs: Preferences)
    ensures var fin := AdvEngine(teachers, schedules, tasks, excl, h, prefs);
      KeysOf(fin.table) == Distinct(NamesOf(teachers))
      && forall i :: 0 <= i < |fin.table| && fin.table[i].teacher.name != UnassignableMarker ==>
           fin.table[i].score == BaseScore(HistoryOf(h, fin.table[i].teacher.name), TotalDuration(h), |teachers|, prefs)
                                 + SumOf(fin.assignments, ScoreDelta(fin.table[i].teacher.name))
  {
    var init := AdvInitial(teachers, h, prefs);
    InitialScoresKeys(teachers, h, TotalDuration(h), |teachers|, prefs);
    InitialScoresEntries(teachers, h, TotalDuration(h), |teachers|, prefs);
    var r0 := AdvRun([], init);
    var r1 := ForcedPhase(r0, schedules, tasks.forced);
    ForcedPhaseBooked(r0, init, schedules, tasks.forced);
    var r2 := DesignatedPhase(r1, schedules, tasks.designated);
    DesignatedPhaseBooked(r1, init, schedules, tasks.designated);
    AdvFillPhaseBooked(r2, init, excl, prefs, AdvDemands(teachers, schedules, tasks, h, prefs));
    var fin := AdvEngine(teachers, schedules, tasks, excl, h, prefs);
    assert KeysOf(fin.table) == KeysOf(init);
  }

  lemma {:induction false} DesignatedPhasePlaces(r: AdvRun, schedules: seq<Schedule>, ts: seq<DesignatedTask>)
    ensures |DesignatedPhase(r, schedules, ts).assignments| >= |r.assignments|
    ensures DesignatedPhase(r, schedules, ts).assignments[..|r.assignments|] == r.assignments
    ensures forall k :: |r.assignments| <= k < |DesignatedPhase(r, schedules, ts).assignments| ==>
      DesignatedPhase(r, schedules, ts).assignments[k].assignedBy == Designated
    decreases |ts|
  {
    if ts != [] {
      DesignatedPhasePlaces(r, schedules, ts[..|ts| - 1]);
    }
  }

  lemma {:induction false} AdvFillPhaseAuto(r: AdvRun, excl: Exclusions, prefs: Preferences, slots: seq<Schedule>)
    ensures AdvFillPhase(r, excl, prefs, slots).assignments[..|r.assignments|] == r.assignments
    ensures forall k :: |r.assignments| <= k < |AdvFillPhase(r, excl, prefs, slots).assignments| ==>
      AdvFillPhase(r, excl, prefs, slots).assignments[k].assignedBy == Auto
    decreases |slots|
  {
    if slots != [] {
      var init := slots[..|slots| - 1];
      AdvFillPhaseAuto(r, excl, prefs, init);
      var prev := AdvFillPhase(r, excl, prefs, init);
      var all := AdvFillPhase(r, excl, prefs, slots).assignments;
      assert all[..|prev.assignments|] == prev.assignments;
      assert all[..|r.assignments|] == all[..|prev.assignments|][..|r.assignments|];
      forall k | |r.assignments| <= k < |all| ensures all[k].assignedBy == Auto {
        if k < |prev.assignments| {
          assert all[k] == prev.assignments[k];
        }
      }
    }
  }

  /**
   * Before the final sort the assignments are: the matched forced tasks, then
   * the matched designated tasks, then one automatic assignment per open
   * demand.
   */
  lemma AdvEngineShape(teachers: seq<Teacher>, schedules: seq<Schedule>, tasks: SpecialTasks, excl: Exclusions,
                       h: HistoricalStats, prefs: Preferences)
    ensures var fin := AdvEngine(teachers, schedules, tasks, excl, h, prefs).assignments;
      var f := CountWhere(tasks.forced, Matched(schedules));
      var m := |AdvMandatory(teachers, schedules, tasks, h, prefs).assignments|;
      f <= m
      && |fin| == m + |Scheduling.Demands(schedules, AdvMandatory(teachers, schedules, tasks, h, prefs).assignments)|
      && (forall k :: 0 <= k < f ==> fin[k].assignedBy == Forced)
      && (forall k :: f <= k < m ==> fin[k].assignedBy == Designated)
      && (forall k :: m <= k < |fin| ==> fin[k].assignedBy == Auto)
  {
    var r0 := AdvRun([], AdvInitial(teachers, h, prefs));
    var r1 := ForcedPhase(r0, schedules, tasks.forced);
    ForcedPhasePlaces(r0, schedules, tasks.forced);
    var r2 := DesignatedPhase(r1, schedules, tasks.designated);
    DesignatedPhasePlaces(r1, schedules, tasks.designated);
    var demands := Scheduling.Demands(schedules, r2.assignments);
    SortByPermutation(demands, InstantKey);
    assert |SortBy(demands, InstantKey)| == |multiset(demands)|;
    AdvFillPhaseAuto(r2, excl, prefs, AdvDemands(teachers, schedules, tasks, h, prefs));
    var fin := AdvEngine(teachers, schedules, tasks, excl, h, prefs).assignments;
    forall k | 0 <= k < |r1.assignments| ensures fin[k] == r1.assignments[k] {
      assert fin[..|r2.assignments|][k] == r2.assignments[k];
      assert r2.assignments[..|r1.assignments|][k] == r1.assignments[k];
    }
    forall k | |r1.assignments| <= k < |r2.assignments| ensures fin[k] == r2.assignments[k] {
      assert fin[..|r2.assignments|][k] == r2.assignments[k];
    }
  }

  /** Each automatic placement is the choice `AdvFillChoice` describes, made against the state before it. */
  lemma AdvFillPhaseChoices(r: AdvRun, excl: Exclusions, prefs: Preferences, slots: seq<Schedule>)
    ensures forall j :: 0 <= j < |slots| ==>
      AdvFillChoice(AdvFillPhase(r, excl, prefs, slots[..j]), excl, prefs, slots[j], AdvFillPhase(r, excl, prefs, slots[..j + 1]))
  {
    forall j | 0 <= j < |slots|
      ensures AdvFillChoice(AdvFillPhase(r, excl, prefs, slots[..j]), excl, prefs, slots[j], AdvFillPhase(r, excl, prefs, slots[..j + 1]))
    {
      AdvFillPhaseSnoc(r, excl, prefs, slots, j);
      AdvFillStepChoice(AdvFillPhase(r, excl, prefs, slots[..j]), excl, prefs, slots[j]);
    }
  }
}
