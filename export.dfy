/**
 * The result table: a pivot of the assignments by time slot and room, and
 * the rows of the exported sheet.
 */
module Export {
  import opened Common
  import opened Text
  import opened Sorting
  import opened Domain

  /** One time slot of the pivot: the teachers of each room, in assignment order. */
  datatype TimeSlot = TimeSlot(date: string, startTime: string, endTime: string, byLocation: map<string, seq<string>>)

  /** `PivotData`. */
  datatype PivotData = PivotData(locations: seq<string>, timeSlots: seq<TimeSlot>)

  /** `${date}_${startTime}_${endTime}`: the key of an assignment's time slot. */
  function SlotId(a: Assignment): string { SessionId(a.date, a.startTime, a.endTime) }

  /** The teachers listed for a room, `[]` when the room has no entry. */
  function ListAt(t: TimeSlot, location: string): seq<string> {
    if location in t.byLocation then t.byLocation[location] else []
  }

  /** The loop state of `transformAssignmentsToPivot`: the location set, the slot map's keys in insertion order, and the slot map. */
  datatype PivotState = PivotState(locations: seq<string>, slotIds: seq<string>, slots: map<string, TimeSlot>)

  function PivotStep(st: PivotState, a: Assignment): PivotState {
    var locations := if a.location in st.locations then st.locations else st.locations + [a.location];
    var id := SlotId(a);
    var slotIds := if id in st.slots then st.slotIds else st.slotIds + [id];
    var slot := if id in st.slots then st.slots[id] else TimeSlot(a.date, a.startTime, a.endTime, map[]);
    var list := ListAt(slot, a.location);
    PivotState(locations, slotIds, st.slots[id := slot.(byLocation := slot.byLocation[a.location := list + [a.teacher]])])
  }

  function PivotScan(assignments: seq<Assignment>): PivotState {
    if assignments == [] then PivotState([], [], map[])
    else PivotStep(PivotScan(assignments[..|assignments| - 1]), assignments[|assignments| - 1])
  }

  /** The comparator of the locations: numeric when both start with a number, else by text (`localeCompare` as code-point order). */
  predicate LocationLe(a: string, b: string) {
    match (ParseIntDecimal(a), ParseIntDecimal(b))
    case (Some(x), Some(y)) => x <= y
    case _ => StrLe(a, b)
  }

  /** The sort key of `new Date(`${date} ${startTime}`)`. */
  function SlotInstant(t: TimeSlot): seq<int> { Instant(t.date, t.startTime) }

  /** `transformAssignmentsToPivot`. */
  function Pivot(assignments: seq<Assignment>): PivotData {
    var st := PivotScan(assignments);
    PivotData(SortWith(st.locations, LocationLe), SortBy(MapValues(st.slotIds, st.slots), SlotInstant))
  }

  method TransformAssignmentsToPivot(assignments: seq<Assignment>) returns (p: PivotData)
    ensures p == Pivot(assignments)
  {
    var st := PivotState([], [], map[]);
    for k := 0 to |assignments|
      invariant st == PivotScan(assignments[..k])
    {
      assert assignments[..k + 1][..k] == assignments[..k];
      st := AddAssignment(st, assignments[k]);
    }
    assert assignments[..|assignments|] == assignments;
    p := PivotData(SortWith(st.locations, LocationLe), SortBy(MapValues(st.slotIds, st.slots), SlotInstant));
  }

  /** The callback of the `forEach`. */
  method AddAssignment(st: PivotState, a: Assignment) returns (next: PivotState)
    ensures next == PivotStep(st, a)
  {
    var locations, slotIds, slots := st.locations, st.slotIds, st.slots;
    if a.location !in locations {
      locations := locations + [a.location];
    }
    var id := SlotId(a);
    if id !in slots {
      slotIds := slotIds + [id];
      slots := slots[id := TimeSlot(a.date, a.startTime, a.endTime, map[])];
    }
    var slot := slots[id];
    if a.location !in slot.byLocation {
      slot := slot.(byLocation := slot.byLocation[a.location := []]);
    }
    ghost var old_slot := if id in st.slots then st.slots[id] else TimeSlot(a.date, a.startTime, a.endTime, map[]);
    assert slot.byLocation[a.location] == ListAt(old_slot, a.location);
    slot := slot.(byLocation := slot.byLocation[a.location := slot.byLocation[a.location] + [a.teacher]]);
    assert slot.byLocation == old_slot.byLocation[a.location := ListAt(old_slot, a.location) + [a.teacher]];
    slots := slots[id := slot];
    next := PivotState(locations, slotIds, slots);
  }

  // ---------------------------------------------------------------------------
  // What the pivot holds

  function SlotIdsOf(s: seq<Assignment>): (r: seq<string>)
    ensures |r| == |s| && forall i :: 0 <= i < |s| ==> r[i] == SlotId(s[i])
  {
    seq(|s|, i requires 0 <= i < |s| => SlotId(s[i]))
  }

  /** Whether an assignment belongs to the cell of slot `id` and room `location`. */
  function InCell(id: string, location: string): Assignment -> bool {
    a => SlotId(a) == id && a.location == location
  }

  function TeachersOf(s: seq<Assignment>): (r: seq<string>)
    ensures |r| == |s| && forall i :: 0 <= i < |s| ==> r[i] == s[i].teacher
  {
    seq(|s|, i requires 0 <= i < |s| => s[i].teacher)
  }

  lemma TeachersOfSnoc(s: seq<Assignment>, a: Assignment)
    ensures TeachersOf(s + [a]) == TeachersOf(s) + [a.teacher]
  {
    var l, r := TeachersOf(s + [a]), TeachersOf(s) + [a.teacher];
    forall i | 0 <= i < |l| ensures l[i] == r[i] {
      if i < |s| {
        assert (s + [a])[i] == s[i];
      }
    }
  }

  /** What the loop keeps about the slot map: its keys in insertion order, and the key of every slot. */
  ghost predicate KeysInvariant(st: PivotState, s: seq<Assignment>) {
    st.locations == Distinct(LocationsOf(s)) && st.slotIds == Distinct(SlotIdsOf(s))
    && (forall id :: id in st.slots <==> id in st.slotIds)
    && forall id :: id in st.slots ==> SessionId(st.slots[id].date, st.slots[id].startTime, st.slots[id].endTime) == id
  }

  lemma StepKeys(st: PivotState, s: seq<Assignment>, a: Assignment)
    requires KeysInvariant(st, s)
    ensures KeysInvariant(PivotStep(st, a), s + [a])
  {
    StepLocations(st, s, a);
    StepSlotIds(st, s, a);
    var next := PivotStep(st, a);
    assert forall id :: id in next.slots <==> id in st.slots || id == SlotId(a);
    forall id | id in next.slots
      ensures SessionId(next.slots[id].date, next.slots[id].startTime, next.slots[id].endTime) == id
    {
      if id != SlotId(a) {
        assert next.slots[id] == st.slots[id];
      }
    }
  }

  lemma StepLocations(st: PivotState, s: seq<Assignment>, a: Assignment)
    requires st.locations == Distinct(LocationsOf(s))
    ensures PivotStep(st, a).locations == Distinct(LocationsOf(s + [a]))
  {
    assert LocationsOf(s + [a]) == LocationsOf(s) + [a.location];
    DistinctAppendOne(LocationsOf(s), a.location);
  }

  lemma StepSlotIds(st: PivotState, s: seq<Assignment>, a: Assignment)
    requires st.slotIds == Distinct(SlotIdsOf(s)) && forall id :: id in st.slots <==> id in st.slotIds
    ensures PivotStep(st, a).slotIds == Distinct(SlotIdsOf(s + [a]))
  {
    assert SlotIdsOf(s + [a]) == SlotIdsOf(s) + [SlotId(a)];
    DistinctAppendOne(SlotIdsOf(s), SlotId(a));
  }

  /**
   * The locations and the slot keys are the distinct ones in first-seen
   * order, and each slot carries the date and times of its key.
   */
  lemma {:induction false} PivotScanKeys(s: seq<Assignment>)
    ensures KeysInvariant(PivotScan(s), s)
  {
    if s != [] {
      var init, last := s[..|s| - 1], s[|s| - 1];
      assert s == init + [last];
      assert PivotScan(s) == PivotStep(PivotScan(init), last);
      PivotScanKeys(init);
      StepKeys(PivotScan(init), init, last);
    }
  }

  /** Each cell of the slot map lists the teachers of the assignments read so far in it. */
  ghost predicate CellsInvariant(st: PivotState, s: seq<Assignment>) {
    forall id, location :: id in st.slots ==> ListAt(st.slots[id], location) == TeachersOf(Filter(s, InCell(id, location)))
  }

  lemma NoCellYet(s: seq<Assignment>, id: string, location: string)
    requires id !in SlotIdsOf(s)
    ensures Filter(s, InCell(id, location)) == []
  {
    forall x | x in s ensures !InCell(id, location)(x) {
      var i :| 0 <= i < |s| && s[i] == x;
      assert SlotIdsOf(s)[i] == SlotId(x);
    }
    FilterNone(s, InCell(id, location));
  }

  lemma StepCells(st: PivotState, s: seq<Assignment>, a: Assignment)
    requires KeysInvariant(st, s) && CellsInvariant(st, s)
    ensures CellsInvariant(PivotStep(st, a), s + [a])
  {
    var next := PivotStep(st, a);
    forall id, location | id in next.slots
      ensures ListAt(next.slots[id], location) == TeachersOf(Filter(s + [a], InCell(id, location)))
    {
      assert id !in st.slots ==> id !in Distinct(SlotIdsOf(s));
      StepCell(st, s, a, id, location);
    }
  }

  /** One cell of the step: it gains the assignment's teacher exactly when the assignment belongs to it. */
  lemma StepCell(st: PivotState, s: seq<Assignment>, a: Assignment, id: string, location: string)
    requires id in st.slots ==> ListAt(st.slots[id], location) == TeachersOf(Filter(s, InCell(id, location)))
    requires id !in st.slots ==> id !in SlotIdsOf(s)
    requires id in PivotStep(st, a).slots
    ensures ListAt(PivotStep(st, a).slots[id], location) == TeachersOf(Filter(s + [a], InCell(id, location)))
  {
    var f0 := Filter(s, InCell(id, location));
    FilterSnoc(s, a, InCell(id, location));
    var before := if id in st.slots then ListAt(st.slots[id], location) else [];
    assert before == TeachersOf(f0) by {
      if id !in st.slots { NoCellYet(s, id, location); }
    }
    var after := ListAt(PivotStep(st, a).slots[id], location);
    StepListAt(st, a, id, location);
    if InCell(id, location)(a) {
      assert after == before + [a.teacher];
      TeachersOfSnoc(f0, a);
    } else {
      assert after == before;
      assert f0 + [] == f0;
    }
  }

  /** The step appends the teacher to the assignment's own cell and leaves every other cell as it was. */
  lemma StepListAt(st: PivotState, a: Assignment, id: string, location: string)
    requires id in PivotStep(st, a).slots
    ensures var before := if id in st.slots then ListAt(st.slots[id], location) else [];
      ListAt(PivotStep(st, a).slots[id], location)
      == if SlotId(a) == id && a.location == location then before + [a.teacher] else before
  {
    var sid := SlotId(a);
    if id == sid {
      var slot := if id in st.slots then st.slots[id] else TimeSlot(a.date, a.startTime, a.endTime, map[]);
      var cells := slot.byLocation[a.location := ListAt(slot, a.location) + [a.teacher]];
      assert PivotStep(st, a).slots[id].byLocation == cells;
    } else {
      assert PivotStep(st, a).slots == st.slots[sid := PivotStep(st, a).slots[sid]];
    }
  }

  /**
   * Each cell lists, in input order, the teachers (conflict markers
   * included) of exactly the assignments of that slot and room.
   */
  lemma {:induction false} PivotScanCells(s: seq<Assignment>)
    ensures CellsInvariant(PivotScan(s), s)
  {
    if s != [] {
      var init, last := s[..|s| - 1], s[|s| - 1];
      assert s == init + [last];
      assert PivotScan(s) == PivotStep(PivotScan(init), last);
      PivotScanCells(init);
      PivotScanKeys(init);
      StepCells(PivotScan(init), init, last);
    }
  }

  /** The pivot's locations are the distinct locations of the assignments, each once. */
  lemma PivotLocations(s: seq<Assignment>)
    ensures var p := Pivot(s);
      multiset(p.locations) == multiset(Distinct(LocationsOf(s)))
      && forall l :: l in p.locations <==> exists i :: 0 <= i < |s| && s[i].location == l
  {
    PivotScanKeys(s);
    var locs := Pivot(s).locations;
    forall l ensures l in locs <==> exists i :: 0 <= i < |s| && s[i].location == l {
      assert l in locs <==> l in multiset(locs);
      assert l in LocationsOf(s) ==> exists i :: 0 <= i < |s| && s[i].location == l;
      assert (exists i :: 0 <= i < |s| && s[i].location == l) ==> l in LocationsOf(s);
    }
  }

  /**
   * The pivot's time slots are the slot map's values, one per distinct slot
   * key, ordered by date and start time with ties in first-seen order.
   */
  lemma PivotSlots(s: seq<Assignment>)
    ensures var p, st := Pivot(s), PivotScan(s);
      |p.timeSlots| == |Distinct(SlotIdsOf(s))|
      && multiset(p.timeSlots) == multiset(MapValues(st.slotIds, st.slots))
      && SortedBy(p.timeSlots, SlotInstant)
      && forall k :: Tied(p.timeSlots, SlotInstant, k) == Tied(MapValues(st.slotIds, st.slots), SlotInstant, k)
  {
    var st := PivotScan(s);
    PivotScanKeys(s);
    var values := MapValues(st.slotIds, st.slots);
    assert |values| == |st.slotIds|;
    SortByPermutation(values, SlotInstant);
    SortBySorted(values, SlotInstant);
    forall k ensures Tied(SortBy(values, SlotInstant), SlotInstant, k) == Tied(values, SlotInstant, k) {
      SortByStable(values, SlotInstant, k);
    }
  }

  /** Locations that all start with a number come out in ascending numeric order. */
  lemma LocationsNumeric(locations: seq<string>)
    requires forall k :: 0 <= k < |locations| ==> ParseIntDecimal(locations[k]).Some?
    ensures var r := SortWith(locations, LocationLe);
      forall i, j :: 0 <= i < j < |r| ==> NumberOf(r[i]) <= NumberOf(r[j])
  {
    forall a, b | a in locations && b in locations ensures LocationLe(a, b) == (NumberOf(a) <= NumberOf(b)) {
      assert a in multiset(locations) && b in multiset(locations);
    }
    SortWithByKey(locations, LocationLe, NumberOf);
  }

  /** The number a location starts with, 0 when it does not start with one. */
  function NumberOf(l: string): int {
    match ParseIntDecimal(l)
    case Some(v) => v
    case None => 0
  }

  /** Locations none of which starts with a number come out in text order. */
  lemma LocationsText(locations: seq<string>)
    requires forall k :: 0 <= k < |locations| ==> ParseIntDecimal(locations[k]).None?
    ensures var r := SortWith(locations, LocationLe);
      forall i, j :: 0 <= i < j < |r| ==> StrLe(r[i], r[j])
  {
    assert forall l :: l in locations ==> ParseIntDecimal(l).None?;
    forall a, b | a in locations && b in locations ensures LocationLe(a, b) || LocationLe(b, a) {
      StrLeTotal(a, b);
    }
    forall a, b, c | a in locations && b in locations && c in locations && LocationLe(a, b) && LocationLe(b, c)
      ensures LocationLe(a, c)
    {
      StrLeTrans(a, b, c);
    }
    SortWithSorted(locations, LocationLe);
    var r := SortWith(locations, LocationLe);
    forall i, j | 0 <= i < j < |r| ensures StrLe(r[i], r[j]) {
      assert r[i] in multiset(r) && r[j] in multiset(r);
      assert LocationLe(r[i], r[j]);
    }
  }

  // ---------------------------------------------------------------------------
  // The exported sheet

  const NoDataError := "没有可导出的数据"

  /** `['日期', '时间', ...locations]`. */
  function HeaderRow(locations: seq<string>): seq<string> {
    ["日期", "时间"] + locations
  }

  /** One data row: the date, `start-end`, and each room's teachers joined with `、`. */
  function SlotRow(date: string, t: TimeSlot, locations: seq<string>): (r: seq<string>)
    ensures |r| == |locations| + 2
    ensures r[0] == date && r[1] == t.startTime + "-" + t.endTime
    ensures forall k :: 0 <= k < |locations| ==> r[k + 2] == Join(ListAt(t, locations[k]), "、")
  {
    [date, t.startTime + "-" + t.endTime] + seq(|locations|, k requires 0 <= k < |locations| => Join(ListAt(t, locations[k]), "、"))
  }

  function SlotDate(t: TimeSlot): string { t.date }

  /** `groupedByDate[date]`: the slots of one date, in order. */
  function SlotsOn(slots: seq<TimeSlot>, date: string): seq<TimeSlot> {
    Filter(slots, KeyIs(SlotDate, date))
  }

  /** The sort key of `new Date(date)`. */
  function DateKey(date: string): seq<int> { DateParts(date) }

  /** The dates of the groups in the order the rows are written. */
  function RowDates(slots: seq<TimeSlot>): seq<string> {
    SortBy(Distinct(Image(slots, SlotDate)), DateKey)
  }

  function RowsOf(date: string, slots: seq<TimeSlot>, locations: seq<string>): (r: seq<seq<string>>)
    ensures |r| == |slots|
  {
    if slots == [] then [] else RowsOf(date, slots[..|slots| - 1], locations) + [SlotRow(date, slots[|slots| - 1], locations)]
  }

  function DataRows(dates: seq<string>, slots: seq<TimeSlot>, locations: seq<string>): seq<seq<string>> {
    if dates == [] then []
    else DataRows(dates[..|dates| - 1], slots, locations) + RowsOf(dates[|dates| - 1], SlotsOn(slots, dates[|dates| - 1]), locations)
  }

  /** The rows of the sheet `exportToExcel` writes, or its error for an empty list. */
  function Sheet(assignments: seq<Assignment>): Result<seq<seq<string>>, string> {
    if assignments == [] then Failure(NoDataError)
    else
      var p := Pivot(assignments);
      Success([HeaderRow(p.locations)] + DataRows(RowDates(p.timeSlots), p.timeSlots, p.locations))
  }

  /** `exportToExcel` up to the sheet's rows; writing the workbook is not modelled. */
  method ExportToExcel(assignments: seq<Assignment>) returns (r: Result<seq<seq<string>>, string>)
    ensures r == Sheet(assignments)
  {
    if |assignments| == 0 {
      return Failure(NoDataError);
    }
    var p := TransformAssignmentsToPivot(assignments);
    var exportData := WriteRows([HeaderRow(p.locations)], RowDates(p.timeSlots), p.timeSlots, p.locations);
    return Success(exportData);
  }

  /** The outer `forEach` over the dates in row order. */
  method WriteRows(header: seq<seq<string>>, dates: seq<string>, slots: seq<TimeSlot>, locations: seq<string>)
    returns (r: seq<seq<string>>)
    ensures r == header + DataRows(dates, slots, locations)
  {
    r := header;
    for d := 0 to |dates|
      invariant r == header + DataRows(dates[..d], slots, locations)
    {
      DataRowsPrefix(header, dates, d, slots, locations);
      r := AppendRows(r, dates[d], SlotsOn(slots, dates[d]), locations);
    }
    assert dates[..|dates|] == dates;
  }

  /** Writing the rows of one more date extends the rows written so far by that date's rows. */
  lemma DataRowsPrefix(header: seq<seq<string>>, dates: seq<string>, d: nat, slots: seq<TimeSlot>, locations: seq<string>)
    requires d < |dates|
    ensures header + DataRows(dates[..d + 1], slots, locations)
      == header + DataRows(dates[..d], slots, locations) + RowsOf(dates[d], SlotsOn(slots, dates[d]), locations)
  {
    var prefix := dates[..d + 1];
    assert prefix[..|prefix| - 1] == dates[..d] && prefix[|prefix| - 1] == dates[d];
  }

  /** The inner `forEach`: one row per slot of the date. */
  method AppendRows(exportData: seq<seq<string>>, date: string, group: seq<TimeSlot>, locations: seq<string>)
    returns (r: seq<seq<string>>)
    ensures r == exportData + RowsOf(date, group, locations)
  {
    r := exportData;
    for k := 0 to |group|
      invariant r == exportData + RowsOf(date, group[..k], locations)
    {
      ghost var prefix := group[..k + 1];
      assert prefix[..|prefix| - 1] == group[..k] && prefix[|prefix| - 1] == group[k];
      assert RowsOf(date, prefix, locations) == RowsOf(date, group[..k], locations) + [SlotRow(date, group[k], locations)];
      r := r + [SlotRow(date, group[k], locations)];
    }
    assert group[..|group|] == group;
  }

  /**
   * An empty list is refused; otherwise the header names the two fixed
   * columns and the rooms, and every data row has one cell per column.
   */
  lemma SheetShape(assignments: seq<Assignment>)
    ensures Sheet(assignments).Failure? <==> assignments == []
    ensures Sheet(assignments).Success? ==>
      var rows, p := Sheet(assignments).value, Pivot(assignments);
      rows[0] == ["日期", "时间"] + p.locations
      && (forall k :: 1 <= k < |rows| ==> |rows[k]| == |p.locations| + 2)
      && |rows| == |p.timeSlots| + 1
      && forall k :: 1 <= k < |rows| ==> RowOfSlot(rows[k], p.timeSlots, p.locations)
  {
    if assignments != [] {
      var p := Pivot(assignments);
      SheetRowsShape(p.locations, p.timeSlots);
    }
  }

  lemma SheetRowsShape(locations: seq<string>, slots: seq<TimeSlot>)
    ensures var rows := [HeaderRow(locations)] + DataRows(RowDates(slots), slots, locations);
      rows[0] == ["日期", "时间"] + locations
      && (forall k :: 1 <= k < |rows| ==> |rows[k]| == |locations| + 2)
      && |rows| == |slots| + 1
      && forall k :: 1 <= k < |rows| ==> RowOfSlot(rows[k], slots, locations)
  {
    var data := DataRows(RowDates(slots), slots, locations);
    DataRowsWidth(RowDates(slots), slots, locations);
    DataRowsOfSlots(RowDates(slots), slots, locations);
    DataRowsCover(slots, locations);
    HeaderThenRows(HeaderRow(locations), data, slots, locations);
  }

  lemma HeaderThenRows(header: seq<string>, data: seq<seq<string>>, slots: seq<TimeSlot>, locations: seq<string>)
    requires forall k :: 0 <= k < |data| ==> |data[k]| == |locations| + 2
    requires forall k :: 0 <= k < |data| ==> RowOfSlot(data[k], slots, locations)
    ensures var rows := [header] + data;
      rows[0] == header && |rows| == |data| + 1
      && (forall k :: 1 <= k < |rows| ==> |rows[k]| == |locations| + 2)
      && forall k :: 1 <= k < |rows| ==> RowOfSlot(rows[k], slots, locations)
  {
    var rows := [header] + data;
    forall k | 1 <= k < |rows| ensures rows[k] == data[k - 1] { }
  }

  /** A row written for one of the time slots: its own date, its times and its cells. */
  ghost predicate RowOfSlot(row: seq<string>, slots: seq<TimeSlot>, locations: seq<string>) {
    exists t :: t in slots && row == SlotRow(t.date, t, locations)
  }

  /** The rows of one date are the rows of its slots, in order. */
  lemma {:induction false} RowsOfSlots(date: string, slots: seq<TimeSlot>, locations: seq<string>)
    ensures forall i :: 0 <= i < |slots| ==> RowsOf(date, slots, locations)[i] == SlotRow(date, slots[i], locations)
  {
    if slots != [] {
      RowsOfSlots(date, slots[..|slots| - 1], locations);
    }
  }

  /** Writing the groups of some dates yields one row per slot of those dates, each the row of its slot. */
  lemma {:induction false} DataRowsOfSlots(dates: seq<string>, slots: seq<TimeSlot>, locations: seq<string>)
    ensures |DataRows(dates, slots, locations)| == CountsOver(dates, slots, SlotDate)
    ensures forall k :: 0 <= k < |DataRows(dates, slots, locations)| ==> RowOfSlot(DataRows(dates, slots, locations)[k], slots, locations)
  {
    if dates != [] {
      var init, d := dates[..|dates| - 1], dates[|dates| - 1];
      DataRowsOfSlots(init, slots, locations);
      var g := SlotsOn(slots, d);
      RowsOfSlots(d, g, locations);
      var prev, rs := DataRows(init, slots, locations), RowsOf(d, g, locations);
      assert DataRows(dates, slots, locations) == prev + rs;
      forall k | 0 <= k < |rs| ensures RowOfSlot(rs[k], slots, locations) {
        assert g[k] in g && KeyIs(SlotDate, d)(g[k]);
        assert rs[k] == SlotRow(g[k].date, g[k], locations);
      }
      forall k | 0 <= k < |prev + rs| ensures RowOfSlot((prev + rs)[k], slots, locations) {
        if k >= |prev| { assert (prev + rs)[k] == rs[k - |prev|]; }
      }
    }
  }

  /** Every time slot is written exactly once: the groups of the row dates together hold all the slots. */
  lemma DataRowsCover(slots: seq<TimeSlot>, locations: seq<string>)
    ensures |DataRows(RowDates(slots), slots, locations)| == |slots|
  {
    var ds := Distinct(Image(slots, SlotDate));
    DataRowsOfSlots(RowDates(slots), slots, locations);
    CountsOverSum(RowDates(slots), slots, SlotDate);
    CountsOverSum(ds, slots, SlotDate);
    SortBySum(ds, DateKey, CountOfKey(slots, SlotDate));
    PartitionCount(slots, SlotDate);
  }

  lemma {:induction false} RowsOfWidth(date: string, slots: seq<TimeSlot>, locations: seq<string>)
    ensures forall k :: 0 <= k < |RowsOf(date, slots, locations)| ==> |RowsOf(date, slots, locations)[k]| == |locations| + 2
  {
    if slots != [] {
      RowsOfWidth(date, slots[..|slots| - 1], locations);
    }
  }

  lemma {:induction false} DataRowsWidth(dates: seq<string>, slots: seq<TimeSlot>, locations: seq<string>)
    ensures forall k :: 0 <= k < |DataRows(dates, slots, locations)| ==> |DataRows(dates, slots, locations)[k]| == |locations| + 2
  {
    if dates != [] {
      DataRowsWidth(dates[..|dates| - 1], slots, locations);
      RowsOfWidth(dates[|dates| - 1], SlotsOn(slots, dates[|dates| - 1]), locations);
    }
  }
}
