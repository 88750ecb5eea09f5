/**
 * The application shell: grouping the imported schedule rows into exam
 * sessions, accumulating the workload history for export, and the gate of
 * the generate button.
 */
module App {
  import opened Common
  import opened Sorting
  import opened Domain
  import opened Validation
  import Statistics

  // ---------------------------------------------------------------------------
  // `groupScheduleIntoSessions`

  /** `Slot`: one room of a session and the number of invigilators it needs. */
  datatype Slot = Slot(location: string, required: int)

  /** `Session`: the rooms sharing one date and time range. */
  datatype Session = Session(id: string, date: string, startTime: string, endTime: string, slots: seq<Slot>)

  /** `${date}_${startTime}_${endTime}`. */
  function ScheduleKey(s: Schedule): string { SessionId(s.date, s.startTime, s.endTime) }

  /** The loop state: the session map's keys in insertion order, and the map. */
  datatype GroupState = GroupState(ids: seq<string>, sessions: map<string, Session>)

  function GroupStep(st: GroupState, x: Schedule): GroupState {
    var id := ScheduleKey(x);
    var session := if id in st.sessions then st.sessions[id] else Session(id, x.date, x.startTime, x.endTime, []);
    GroupState(if id in st.sessions then st.ids else st.ids + [id],
               st.sessions[id := session.(slots := session.slots + [Slot(x.location, x.required)])])
  }

  function GroupScan(data: seq<Schedule>): GroupState {
    if data == [] then GroupState([], map[]) else GroupStep(GroupScan(data[..|data| - 1]), data[|data| - 1])
  }

  /** The sort key of `new Date(`${date} ${startTime}`)`. */
  function SessionInstant(s: Session): seq<int> { Instant(s.date, s.startTime) }

  /** The sessions `groupScheduleIntoSessions` returns. */
  function Sessions(data: seq<Schedule>): seq<Session> {
    var st := GroupScan(data);
    SortBy(MapValues(st.ids, st.sessions), SessionInstant)
  }

  method GroupScheduleIntoSessions(scheduleData: seq<Schedule>) returns (sessions: seq<Session>)
    ensures sessions == Sessions(scheduleData)
  {
    var ids: seq<string> := [];
    var sessionMap: map<string, Session> := map[];
    for k := 0 to |scheduleData|
      invariant GroupState(ids, sessionMap) == GroupScan(scheduleData[..k])
    {
      assert scheduleData[..k + 1][..k] == scheduleData[..k];
      var slot := scheduleData[k];
      var sessionId := SessionId(slot.date, slot.startTime, slot.endTime);
      if sessionId !in sessionMap {
        ids := ids + [sessionId];
        sessionMap := sessionMap[sessionId := Session(sessionId, slot.date, slot.startTime, slot.endTime, [])];
      }
      var session := sessionMap[sessionId];
      sessionMap := sessionMap[sessionId := session.(slots := session.slots + [Slot(slot.location, slot.required)])];
    }
    assert scheduleData[..|scheduleData|] == scheduleData;
    sessions := SortBy(MapValues(ids, sessionMap), SessionInstant);
  }

  /** The slots contributed by some schedule rows, in order. */
  function SlotsOf(rows: seq<Schedule>): (r: seq<Slot>)
    ensures |r| == |rows| && forall i :: 0 <= i < |rows| ==> r[i] == Slot(rows[i].location, rows[i].required)
  {
    seq(|rows|, i requires 0 <= i < |rows| => Slot(rows[i].location, rows[i].required))
  }

  /** The rows of one session, in input order. */
  function RowsOf(data: seq<Schedule>, id: string): seq<Schedule> {
    Filter(data, KeyIs(ScheduleKey, id))
  }

  /** A session as the rows of its key make it. */
  ghost predicate SessionOf(data: seq<Schedule>, s: Session) {
    SessionId(s.date, s.startTime, s.endTime) == s.id && s.slots == SlotsOf(RowsOf(data, s.id))
  }

  /** What the loop keeps: the keys are the distinct keys so far, and each session holds its rows' slots. */
  ghost predicate GroupInvariant(st: GroupState, data: seq<Schedule>) {
    GroupKeys(st, data) && GroupSessions(st, data)
  }

  ghost predicate GroupKeys(st: GroupState, data: seq<Schedule>) {
    st.ids == Distinct(Image(data, ScheduleKey))
    && (forall id :: id in st.sessions <==> id in st.ids)
  }

  ghost predicate GroupSessions(st: GroupState, data: seq<Schedule>) {
    forall id :: id in st.sessions ==> st.sessions[id].id == id && SessionOf(data, st.sessions[id])
  }

  lemma NoRowsYet(data: seq<Schedule>, id: string)
    requires id !in Image(data, ScheduleKey)
    ensures RowsOf(data, id) == []
  {
    CountWhereNoKey(data, ScheduleKey, id);
  }

  lemma GroupStepKeys(st: GroupState, data: seq<Schedule>, x: Schedule)
    requires GroupKeys(st, data)
    ensures GroupKeys(GroupStep(st, x), data + [x])
  {
    assert Image(data + [x], ScheduleKey) == Image(data, ScheduleKey) + [ScheduleKey(x)];
    DistinctAppendOne(Image(data, ScheduleKey), ScheduleKey(x));
  }

  lemma GroupStepSessions(st: GroupState, data: seq<Schedule>, x: Schedule)
    requires GroupKeys(st, data) && GroupSessions(st, data)
    ensures GroupSessions(GroupStep(st, x), data + [x])
  {
    var next := GroupStep(st, x);
    var all := data + [x];
    assert all[..|data|] == data;
    forall id | id in next.sessions ensures next.sessions[id].id == id && SessionOf(all, next.sessions[id]) {
      var rows := RowsOf(data, id);
      assert RowsOf(all, id) == rows + (if ScheduleKey(x) == id then [x] else []);
      if id == ScheduleKey(x) {
        if id !in st.sessions {
          NoRowsYet(data, id);
        }
        assert SlotsOf(rows + [x]) == SlotsOf(rows) + [Slot(x.location, x.required)];
      } else {
        assert rows + [] == rows;
      }
    }
  }

  lemma GroupStepKeeps(st: GroupState, data: seq<Schedule>, x: Schedule)
    requires GroupInvariant(st, data)
    ensures GroupInvariant(GroupStep(st, x), data + [x])
  {
    GroupStepKeys(st, data, x);
    GroupStepSessions(st, data, x);
  }

  lemma {:induction false} GroupScanKeeps(data: seq<Schedule>)
    ensures GroupInvariant(GroupScan(data), data)
  {
    if data != [] {
      var init := data[..|data| - 1];
      GroupScanKeeps(init);
      GroupStepKeeps(GroupScan(init), init, data[|data| - 1]);
      assert init + [data[|data| - 1]] == data;
    }
  }

  function HasId(id: string): Session -> int {
    (s: Session) => if s.id == id then 1 else 0
  }

  function SlotCount(s: Session): int { |s.slots| }

  /** Summing over the sessions in key order, each key's session is counted once. */
  lemma {:induction false} ValuesHaveIds(ids: seq<string>, m: map<string, Session>, id: string)
    requires forall i :: 0 <= i < |ids| ==> ids[i] in m && m[ids[i]].id == ids[i]
    ensures SumOf(MapValues(ids, m), HasId(id)) == Occurrences(ids, id)
  {
    if ids != [] {
      var init := ids[..|ids| - 1];
      ValuesHaveIds(init, m, id);
      assert MapValues(ids, m)[..|init|] == MapValues(init, m);
    }
  }

  /** The slot counts of the sessions, in key order, add up to the rows of those keys. */
  lemma {:induction false} ValuesSlotCount(ids: seq<string>, m: map<string, Session>, data: seq<Schedule>)
    requires forall i :: 0 <= i < |ids| ==> ids[i] in m && SlotCount(m[ids[i]]) == CountWhere(data, KeyIs(ScheduleKey, ids[i]))
    ensures SumOf(MapValues(ids, m), SlotCount) == CountsOver(ids, data, ScheduleKey)
  {
    if ids != [] {
      var init, last := ids[..|ids| - 1], ids[|ids| - 1];
      assert ids == init + [last];
      ValuesSlotCount(init, m, data);
      assert MapValues(ids, m) == MapValues(init, m) + [m[last]];
    }
  }

  /** The keys the loop keeps, and the key each session carries. */
  lemma GroupIds(data: seq<Schedule>)
    ensures var st := GroupScan(data);
      st.ids == Distinct(Image(data, ScheduleKey))
      && forall i :: 0 <= i < |st.ids| ==> st.ids[i] in st.sessions && st.sessions[st.ids[i]].id == st.ids[i]
  {
    GroupScanKeeps(data);
  }

  /** Each kept session has one slot per row of its key. */
  lemma GroupSlotCounts(data: seq<Schedule>)
    ensures var st := GroupScan(data);
      forall i :: 0 <= i < |st.ids| ==> st.ids[i] in st.sessions && SlotCount(st.sessions[st.ids[i]]) == CountWhere(data, KeyIs(ScheduleKey, st.ids[i]))
  {
    var st := GroupScan(data);
    GroupScanKeeps(data);
    forall i | 0 <= i < |st.ids| ensures st.ids[i] in st.sessions && SlotCount(st.sessions[st.ids[i]]) == CountWhere(data, KeyIs(ScheduleKey, st.ids[i])) {
      assert st.ids[i] in st.ids;
    }
  }

  /** Each session is made of the rows of its key, slots in input order, and its key is the date and times it carries. */
  lemma SessionsContents(data: seq<Schedule>)
    ensures forall s :: s in Sessions(data) ==> SessionOf(data, s)
  {
    var st := GroupScan(data);
    GroupScanKeeps(data);
    var values := MapValues(st.ids, st.sessions);
    ValuesAreSessions(st.ids, st.sessions, data);
    SortByPermutation(values, SessionInstant);
    forall s | s in Sessions(data) ensures SessionOf(data, s) {
      assert s in multiset(values);
    }
  }

  lemma ValuesAreSessions(ids: seq<string>, m: map<string, Session>, data: seq<Schedule>)
    requires forall id :: id in ids ==> id in m && SessionOf(data, m[id])
    ensures forall s :: s in MapValues(ids, m) ==> SessionOf(data, s)
  {
    var values := MapValues(ids, m);
    forall s | s in values ensures SessionOf(data, s) {
      var i :| 0 <= i < |values| && values[i] == s;
      assert s == m[ids[i]];
    }
  }

  /** The sessions come in date and start order, ties in first-seen order. */
  lemma SessionsOrder(data: seq<Schedule>)
    ensures var values := MapValues(GroupScan(data).ids, GroupScan(data).sessions);
      SortedBy(Sessions(data), SessionInstant)
      && forall k :: Tied(Sessions(data), SessionInstant, k) == Tied(values, SessionInstant, k)
  {
    var st := GroupScan(data);
    var values := MapValues(st.ids, st.sessions);
    SortBySorted(values, SessionInstant);
    forall k ensures Tied(SortBy(values, SessionInstant), SessionInstant, k) == Tied(values, SessionInstant, k) {
      SortByStable(values, SessionInstant, k);
    }
  }

  /**
   * Exactly one session per distinct key, and every row becomes one slot:
   * the slot counts add up to the number of rows.
   */
  lemma SessionsCount(data: seq<Schedule>)
    ensures var r, keys := Sessions(data), Image(data, ScheduleKey);
      |r| == |Distinct(keys)|
      && (forall id :: SumOf(r, HasId(id)) == if id in keys then 1 else 0)
      && SumOf(r, SlotCount) == |data|
  {
    var st := GroupScan(data);
    GroupScanKeeps(data);
    assert |MapValues(st.ids, st.sessions)| == |st.ids|;
    forall id ensures SumOf(Sessions(data), HasId(id)) == if id in Image(data, ScheduleKey) then 1 else 0 {
      SessionsPerKey(data, id);
    }
    SessionsSlotTotal(data);
  }

  lemma SessionsPerKey(data: seq<Schedule>, id: string)
    ensures SumOf(Sessions(data), HasId(id)) == if id in Image(data, ScheduleKey) then 1 else 0
  {
    var st := GroupScan(data);
    GroupIds(data);
    SortBySum(MapValues(st.ids, st.sessions), SessionInstant, HasId(id));
    ValuesHaveIds(st.ids, st.sessions, id);
    OccurrencesDistinct(st.ids, id);
  }

  lemma SessionsSlotTotal(data: seq<Schedule>)
    ensures SumOf(Sessions(data), SlotCount) == |data|
  {
    var st := GroupScan(data);
    GroupIds(data);
    GroupSlotCounts(data);
    SortBySum(MapValues(st.ids, st.sessions), SessionInstant, SlotCount);
    ValuesSlotCount(st.ids, st.sessions, data);
    PartitionCount(data, ScheduleKey);
  }

  // ---------------------------------------------------------------------------
  // `handleExportHistory`

  /** One `{ count, duration }` record of the history, an object shared by reference. */
  class LoadEntry {
    var count: int
    var duration: int

    constructor (count: int, duration: int)
      ensures this.count == count && this.duration == duration
    {
      this.count := count;
      this.duration := duration;
    }
  }

  /** The values currently held by a record of entries. */
  function Snapshot(m: map<string, LoadEntry>): HistoricalStats
    reads m.Values
  {
    map k | k in m :: Load(m[k].count, m[k].duration)
  }

  /** No two names share an entry object. */
  ghost predicate Unshared(m: map<string, LoadEntry>) {
    forall a, b :: a in m && b in m && a != b ==> m[a] != m[b]
  }

  /** `l` added `k` times. */
  function Repeat(k: nat, l: Load): Load {
    if k == 0 then Load(0, 0) else AddLoad(Repeat(k - 1, l), l)
  }

  lemma {:induction false} RepeatPositive(k: nat, l: Load)
    requires k > 0 && l.count > 0
    ensures Repeat(k, l).count > 0
  {
    if k > 1 { RepeatPositive(k - 1, l); }
  }

  /** The current load of each name. */
  function CurrentOf(assignments: seq<Assignment>): string -> Load {
    n => CurrentLoad(assignments, n)
  }

  /** The history after adding each teacher-list entry's `load` to its name, in list order. */
  function Accumulated(h: HistoricalStats, teachers: seq<Teacher>, load: string -> Load): HistoricalStats {
    if teachers == [] then h
    else
      var prev := Accumulated(h, teachers[..|teachers| - 1], load);
      var name := teachers[|teachers| - 1].name;
      prev[name := AddLoad(HistoryOf(prev, name), load(name))]
  }

  lemma NamesSnoc(teachers: seq<Teacher>)
    requires teachers != []
    ensures NamesOf(teachers) == NamesOf(teachers[..|teachers| - 1]) + [teachers[|teachers| - 1].name]
  {
  }

  lemma NamesOccurrencesSnoc(teachers: seq<Teacher>, n: string)
    requires teachers != []
    ensures Occurrences(NamesOf(teachers), n) == Occurrences(NamesOf(teachers[..|teachers| - 1]), n) + if teachers[|teachers| - 1].name == n then 1 else 0
  {
    NamesSnoc(teachers);
    OccurrencesSnoc(NamesOf(teachers[..|teachers| - 1]), teachers[|teachers| - 1].name);
  }

  /** One more teacher-list entry adds its load to its own name and to no other. */
  lemma AccumulatedStep(h: HistoricalStats, teachers: seq<Teacher>, load: string -> Load, n: string)
    requires teachers != []
    ensures var prev, last := Accumulated(h, teachers[..|teachers| - 1], load), teachers[|teachers| - 1].name;
      (n in Accumulated(h, teachers, load) <==> n in prev || n == last)
      && HistoryOf(Accumulated(h, teachers, load), n) == if n == last then AddLoad(HistoryOf(prev, n), load(n)) else HistoryOf(prev, n)
  {
  }

  lemma AccumulatedPrefix(h: HistoricalStats, teachers: seq<Teacher>, i: nat, load: string -> Load)
    requires i < |teachers|
    ensures var prev, name := Accumulated(h, teachers[..i], load), teachers[i].name;
      Accumulated(h, teachers[..i + 1], load) == prev[name := AddLoad(HistoryOf(prev, name), load(name))]
  {
    var prefix := teachers[..i + 1];
    assert prefix[..|prefix| - 1] == teachers[..i] && prefix[|prefix| - 1] == teachers[i];
  }

  /** The names of the exported history are the old names and the teachers' names. */
  lemma {:induction false} AccumulatedKeys(h: HistoricalStats, teachers: seq<Teacher>, load: string -> Load, n: string)
    ensures n in Accumulated(h, teachers, load) <==> n in h || n in NamesOf(teachers)
  {
    if teachers != [] {
      AccumulatedKeys(h, teachers[..|teachers| - 1], load, n);
      AccumulatedStep(h, teachers, load, n);
      NamesSnoc(teachers);
    }
  }

  /**
   * Each name holds its old figures (zero when new) plus the current load
   * once per time the name appears in the teacher list: a name listed twice
   * is added twice.
   */
  lemma {:induction false} AccumulatedValue(h: HistoricalStats, teachers: seq<Teacher>, load: string -> Load, n: string)
    ensures HistoryOf(Accumulated(h, teachers, load), n) == AddLoad(HistoryOf(h, n), Repeat(Occurrences(NamesOf(teachers), n), load(n)))
  {
    if teachers != [] {
      AccumulatedValue(h, teachers[..|teachers| - 1], load, n);
      AccumulatedValueStep(h, teachers, load, n);
    }
  }

  lemma AccumulatedValueStep(h: HistoricalStats, teachers: seq<Teacher>, load: string -> Load, n: string)
    requires teachers != []
    requires var init := teachers[..|teachers| - 1];
      HistoryOf(Accumulated(h, init, load), n) == AddLoad(HistoryOf(h, n), Repeat(Occurrences(NamesOf(init), n), load(n)))
    ensures HistoryOf(Accumulated(h, teachers, load), n) == AddLoad(HistoryOf(h, n), Repeat(Occurrences(NamesOf(teachers), n), load(n)))
  {
    var init := teachers[..|teachers| - 1];
    AccumulatedStep(h, teachers, load, n);
    NamesOccurrencesSnoc(teachers, n);
    AddStep(HistoryOf(Accumulated(h, teachers, load), n), HistoryOf(Accumulated(h, init, load), n),
      HistoryOf(h, n), Occurrences(NamesOf(init), n), Occurrences(NamesOf(teachers), n), load(n), teachers[|teachers| - 1].name == n);
  }

  lemma AddStep(now: Load, before: Load, start: Load, k: nat, occ: nat, l: Load, again: bool)
    requires before == AddLoad(start, Repeat(k, l))
    requires now == if again then AddLoad(before, l) else before
    requires occ == k + if again then 1 else 0
    ensures now == AddLoad(start, Repeat(occ, l))
  {
  }

  /** For a name listed once, the exported total is the total the statistics panel shows. */
  lemma ExportMatchesPanel(h: HistoricalStats, teachers: seq<Teacher>, assignments: seq<Assignment>, i: nat)
    requires i < |teachers| && Occurrences(NamesOf(teachers), teachers[i].name) == 1
    ensures HistoryOf(Accumulated(h, teachers, CurrentOf(assignments)), teachers[i].name) == Statistics.StatOf(teachers[i], assignments, h).total
  {
    var n := teachers[i].name;
    OnceAdded(h, teachers, CurrentOf(assignments), n);
    assert CurrentOf(assignments)(n) == CurrentLoad(assignments, n);
    assert Statistics.StatOf(teachers[i], assignments, h).total == AddLoad(CurrentLoad(assignments, n), HistoryOf(h, n));
  }

  /** A name listed once gets its load added exactly once. */
  lemma OnceAdded(h: HistoricalStats, teachers: seq<Teacher>, load: string -> Load, n: string)
    requires Occurrences(NamesOf(teachers), n) == 1
    ensures HistoryOf(Accumulated(h, teachers, load), n) == AddLoad(load(n), HistoryOf(h, n))
  {
    AccumulatedValue(h, teachers, load, n);
    assert Repeat(1, load(n)) == AddLoad(Load(0, 0), load(n));
  }

  /**
   * The part of the loop both exports share: for each teacher-list entry,
   * create its record if missing and add the current load to it in place.
   */
  method AddCurrentLoads(data: map<string, LoadEntry>, teachers: seq<Teacher>, assignments: seq<Assignment>)
    returns (out: map<string, LoadEntry>)
    requires Unshared(data)
    modifies data.Values
    ensures Unshared(out)
    ensures Snapshot(out) == Accumulated(old(Snapshot(data)), teachers, CurrentOf(assignments))
    ensures forall k :: k in data ==> k in out && out[k] == data[k]
    ensures forall k :: k in out && k !in data ==> fresh(out[k])
  {
    ghost var start := Snapshot(data);
    out := data;
    for i := 0 to |teachers|
      invariant Unshared(out)
      invariant forall k :: k in data ==> k in out && out[k] == data[k]
      invariant forall k :: k in out && k !in data ==> fresh(out[k])
      invariant Snapshot(out) == Accumulated(start, teachers[..i], CurrentOf(assignments))
    {
      AccumulatedPrefix(start, teachers, i, CurrentOf(assignments));
      var name := teachers[i].name;
      Statistics.AccumulateDuties(assignments, name);
      var current := Statistics.Accumulate(Filter(assignments, Statistics.Duty(name)));
      assert current == CurrentOf(assignments)(name);
      assert forall o :: o in out.Values ==> o in data.Values || fresh(o);
      out := AddLoadTo(out, name, current);
    }
    assert teachers[..|teachers|] == teachers;
  }

  /** The body of the `forEach`: `dataToExport[name]` is created when missing, then raised in place. */
  method AddLoadTo(m: map<string, LoadEntry>, name: string, l: Load) returns (r: map<string, LoadEntry>)
    requires Unshared(m)
    modifies m.Values
    ensures Unshared(r)
    ensures forall k :: k in m ==> k in r && r[k] == m[k]
    ensures forall k :: k in r && k !in m ==> k == name && fresh(r[k])
    ensures Snapshot(r) == old(Snapshot(m))[name := AddLoad(HistoryOf(old(Snapshot(m)), name), l)]
  {
    ghost var s0 := Snapshot(m);
    r := m;
    if name !in r {
      var fresh_entry := new LoadEntry(0, 0);
      assert forall k :: k in m ==> m[k] != fresh_entry;
      r := r[name := fresh_entry];
    }
    assert Unshared(r);
    assert Snapshot(r) == s0[name := HistoryOf(s0, name)];
    var entry := r[name];
    assert forall k :: k in r && k != name ==> r[k] != entry;
    ghost var s1 := Snapshot(r);
    ghost var raised := AddLoad(HistoryOf(s0, name), l);
    assert raised == Load(s1[name].count + l.count, s1[name].duration + l.duration);
    label Before:
    entry.count := entry.count + l.count;
    entry.duration := entry.duration + l.duration;
    forall k | k in r && k != name ensures Snapshot(r)[k] == s1[k] {
      assert r[k].count == old@Before(r[k].count) && r[k].duration == old@Before(r[k].duration);
    }
    assert Snapshot(r)[name] == raised;
    RaisedOne(Snapshot(r), s0, s1, name, raised);
  }

  /** A snapshot that differs from `s1` only at `name`, where it holds `raised`. */
  lemma RaisedOne(after: HistoricalStats, s0: HistoricalStats, s1: HistoricalStats, name: string, raised: Load)
    requires s1 == s0[name := HistoryOf(s0, name)]
    requires after.Keys == s1.Keys && name in after && after[name] == raised
    requires forall k :: k in after && k != name ==> after[k] == s1[k]
    ensures after == s0[name := raised]
  {
  }

  /**
   * `handleExportHistory` as written: `{ ...historicalStats }` copies the
   * record but not its entries, so the stored history of every name it
   * already held is raised in place along with the exported copy.
   */
  method ExportHistoryShared(historicalStats: map<string, LoadEntry>, teachers: seq<Teacher>, assignments: seq<Assignment>)
    returns (dataToExport: map<string, LoadEntry>)
    requires Unshared(historicalStats)
    modifies historicalStats.Values
    ensures Snapshot(dataToExport) == Accumulated(old(Snapshot(historicalStats)), teachers, CurrentOf(assignments))
    ensures Snapshot(historicalStats) == StoredAfterExport(old(Snapshot(historicalStats)), teachers, assignments)
  {
    ghost var h0 := Snapshot(historicalStats);
    dataToExport := AddCurrentLoads(historicalStats, teachers, assignments);
    ghost var r := Accumulated(h0, teachers, CurrentOf(assignments));
    forall k | k in historicalStats ensures k in r && Snapshot(historicalStats)[k] == HistoryOf(r, k) {
      assert Snapshot(historicalStats)[k] == Snapshot(dataToExport)[k];
    }
    assert Snapshot(historicalStats) == StoredAfterExport(h0, teachers, assignments);
  }

  /** What the shared export leaves in the stored history: the old names with their exported figures. */
  function StoredAfterExport(h: HistoricalStats, teachers: seq<Teacher>, assignments: seq<Assignment>): HistoricalStats {
    var r := Accumulated(h, teachers, CurrentOf(assignments));
    map k | k in h :: HistoryOf(r, k)
  }

  /**
   * Exporting twice after the shared export counts the current term twice
   * for a teacher who already had history and has a duty now.
   */
  lemma ExportTwiceAsWritten(h: HistoricalStats, teachers: seq<Teacher>, assignments: seq<Assignment>, n: string)
    requires n in h && n in NamesOf(teachers) && CurrentLoad(assignments, n).count > 0
    ensures HistoryOf(Accumulated(StoredAfterExport(h, teachers, assignments), teachers, CurrentOf(assignments)), n)
         != HistoryOf(Accumulated(h, teachers, CurrentOf(assignments)), n)
  {
    var k := Occurrences(NamesOf(teachers), n);
    var c := CurrentLoad(assignments, n);
    AccumulatedValue(h, teachers, CurrentOf(assignments), n);
    AccumulatedValue(StoredAfterExport(h, teachers, assignments), teachers, CurrentOf(assignments), n);
    RepeatPositive(k, c);
  }

  /**
   * The export with the entries copied as well: the stored history is left
   * as it was, so exporting again writes the same figures.
   */
  method ExportHistory(historicalStats: map<string, LoadEntry>, teachers: seq<Teacher>, assignments: seq<Assignment>)
    returns (dataToExport: map<string, LoadEntry>)
    ensures Snapshot(dataToExport) == Accumulated(Snapshot(historicalStats), teachers, CurrentOf(assignments))
  {
    var copy: map<string, LoadEntry> := map[];
    var keys := historicalStats.Keys;
    while keys != {}
      invariant keys <= historicalStats.Keys
      invariant forall k :: k in copy <==> k in historicalStats && k !in keys
      invariant forall k :: k in copy ==> fresh(copy[k])
      invariant Unshared(copy)
      invariant forall k :: k in copy ==> Snapshot(copy)[k] == Snapshot(historicalStats)[k]
      decreases keys
    {
      var k :| k in keys;
      var entry := new LoadEntry(historicalStats[k].count, historicalStats[k].duration);
      copy := copy[k := entry];
      keys := keys - {k};
    }
    assert Snapshot(copy) == Snapshot(historicalStats);
    dataToExport := AddCurrentLoads(copy, teachers, assignments);
  }

  // ---------------------------------------------------------------------------
  // `canGenerate`

  /** The generate button is enabled when both lists are non-empty. */
  predicate CanGenerate(teachers: seq<Teacher>, schedules: seq<Schedule>) {
    |teachers| > 0 && |schedules| > 0
  }

  /**
   * The button's gate is weaker than the generator's own check: whenever
   * validation finds no error the button is enabled, and a disabled button
   * always comes with a validation error.
   */
  lemma CanGenerateGate(teachers: seq<Teacher>, schedules: seq<Schedule>, tasks: SpecialTasks)
    ensures !CanGenerate(teachers, schedules) ==> exists i :: i in Validate(teachers, schedules, tasks) && IsError(i)
  {
    HasErrorExactly(teachers, schedules, tasks);
  }
}
