/**
 * The records shared by every part of the system, the marker strings the
 * engines write into the teacher field, and the time and key arithmetic the
 * source spreads over template strings and `new Date(...)`.
 */
module Domain {
  import opened Common
  import opened Text

  /** A person who can invigilate; `name` is the key used everywhere else. `department` is `""` when absent. */
  datatype Teacher = Teacher(id: string, name: string, department: string)

  /** One exam room at one time, needing `required` invigilators. Times are `HH:MM` text. */
  datatype Schedule = Schedule(id: string, date: string, startTime: string, endTime: string,
                               location: string, required: int)

  datatype AssignedBy = Auto | Designated | Forced | Manual

  /** One seat of a schedule, filled by `teacher` (a name or a `!!` marker). */
  datatype Assignment = Assignment(id: string, teacher: string, date: string, startTime: string,
                                   endTime: string, location: string, required: int, assignedBy: AssignedBy)

  /** A preferred teacher for one room of one session (`slotId` is the session id). */
  datatype DesignatedTask = DesignatedTask(teacher: string, date: string, slotId: string, location: string)

  /** A locked teacher for one room of one session. */
  datatype ForcedTask = ForcedTask(sessionId: string, location: string, teacher: string)

  datatype SpecialTasks = SpecialTasks(designated: seq<DesignatedTask>, forced: seq<ForcedTask>)

  /** Number of duties and their total minutes. */
  datatype Load = Load(count: int, duration: int)

  /** Accumulated load per teacher name from earlier terms. */
  type HistoricalStats = map<string, Load>

  /** Per teacher name, the set of excluded keys (`<session>_all` or `<session>_<location>`). */
  type Exclusions = map<string, set<string>>

  /** `{ ...schedule, teacher, assignedBy }`. */
  function Place(s: Schedule, teacher: string, source: AssignedBy): (a: Assignment)
    ensures a.id == s.id && a.date == s.date && a.startTime == s.startTime && a.endTime == s.endTime
    ensures a.location == s.location && a.required == s.required
    ensures a.teacher == teacher && a.assignedBy == source
  {
    Assignment(s.id, teacher, s.date, s.startTime, s.endTime, s.location, s.required, source)
  }

  /** The names of a teacher list, in order. */
  function NamesOf(teachers: seq<Teacher>): (r: seq<string>)
    ensures |r| == |teachers| && forall i :: 0 <= i < |teachers| ==> r[i] == teachers[i].name
  {
    seq(|teachers|, i requires 0 <= i < |teachers| => teachers[i].name)
  }

  /** The room of each assignment, in order. */
  function LocationsOf(s: seq<Assignment>): (r: seq<string>)
    ensures |r| == |s| && forall i :: 0 <= i < |s| ==> r[i] == s[i].location
  {
    seq(|s|, i requires 0 <= i < |s| => s[i].location)
  }

  /** `historicalStats[name] || { count: 0, duration: 0 }`. */
  function HistoryOf(h: HistoricalStats, name: string): (l: Load)
    ensures name !in h ==> l == Load(0, 0)
    ensures name in h ==> l == h[name]
  {
    if name in h then h[name] else Load(0, 0)
  }

  function AddLoad(a: Load, b: Load): Load { Load(a.count + b.count, a.duration + b.duration) }

  /** An assignment is a duty of `name`: `a.teacher === name && !a.teacher.startsWith('!!')`. */
  predicate IsDutyOf(a: Assignment, name: string) { a.teacher == name && !IsMarker(a.teacher) }

  function DutyUnit(name: string): Assignment -> int {
    a => if IsDutyOf(a, name) then 1 else 0
  }

  function DutyMinutes(name: string): Assignment -> int {
    a => if IsDutyOf(a, name) then Duration(a.startTime, a.endTime) else 0
  }

  /** The number of duties of `name` in `acc` and their total minutes. */
  function CurrentLoad(acc: seq<Assignment>, name: string): Load {
    Load(SumOf(acc, DutyUnit(name)), SumOf(acc, DutyMinutes(name)))
  }

  /** Appending one assignment adds one duty of its length to its own teacher, if it is a person, and to nobody else. */
  lemma CurrentLoadSnoc(acc: seq<Assignment>, a: Assignment, name: string)
    ensures CurrentLoad(acc + [a], name)
      == if IsDutyOf(a, name) then AddLoad(CurrentLoad(acc, name), Load(1, Duration(a.startTime, a.endTime)))
         else CurrentLoad(acc, name)
  {
    assert (acc + [a])[..|acc|] == acc;
  }

  // ---------------------------------------------------------------------------
  // Markers written into the teacher field

  const MarkerPrefix: string := "!!"
  const UnassignableMarker: string := "!!无法分配!!"
  const LockPrefix: string := "!!锁定冲突: "
  const DesignatedPrefix: string := "!!指定冲突: "
  const ConflictWord: string := "冲突"

  /** The teacher field of a forced pin whose teacher is already busy. */
  function LockConflictMarker(name: string): string { LockPrefix + name + MarkerPrefix }

  /** The teacher field of a designated pin whose teacher is already busy. */
  function DesignatedConflictMarker(name: string): string { DesignatedPrefix + name + MarkerPrefix }

  /** `teacher.startsWith('!!')`: the field holds a marker, not a person. */
  predicate IsMarker(teacher: string) { StartsWith(teacher, MarkerPrefix) }

  /** The three markers are recognised as markers; the two conflict markers contain `冲突`, the unassignable one does not. */
  lemma MarkerClassification(name: string)
    ensures IsMarker(UnassignableMarker) && IsMarker(LockConflictMarker(name)) && IsMarker(DesignatedConflictMarker(name))
    ensures Contains(LockConflictMarker(name), ConflictWord) && Contains(DesignatedConflictMarker(name), ConflictWord)
    ensures !Contains(UnassignableMarker, ConflictWord)
  {
    assert LockConflictMarker(name)[..2] == MarkerPrefix;
    assert DesignatedConflictMarker(name)[..2] == MarkerPrefix;
    assert LockConflictMarker(name)[4..6] == ConflictWord;
    ContainsAt(LockConflictMarker(name), ConflictWord, 4);
    assert DesignatedConflictMarker(name)[4..6] == ConflictWord;
    ContainsAt(DesignatedConflictMarker(name), ConflictWord, 4);
    NotContainsUnassignable();
  }

  lemma NotContainsUnassignable()
    ensures !Contains(UnassignableMarker, ConflictWord)
  {
    NotContainsFirst(UnassignableMarker, ConflictWord);
  }

  // ---------------------------------------------------------------------------
  // `teacher.replace(/!!.*: (.*)!!/, '$1')`

  /** The line terminators, which JavaScript's `.` does not match. */
  predicate IsLineTerminator(c: char) { c == '\n' || c == '\r' || c == '\U{2028}' || c == '\U{2029}' }

  /** The two characters `c0 c1` stand at position `p` of `t`. */
  predicate At2(t: string, p: int, c0: char, c1: char) { 0 <= p && p + 1 < |t| && t[p] == c0 && t[p + 1] == c1 }

  predicate Bangs(t: string, p: int) { At2(t, p, '!', '!') }

  predicate ColonSpace(t: string, p: int) { At2(t, p, ':', ' ') }

  /** No line terminator in `t[lo..hi]`. */
  predicate OneLine(t: string, lo: int, hi: int) {
    forall p :: 0 <= lo <= p < hi <= |t| ==> !IsLineTerminator(t[p])
  }

  /**
   * A match of `/!!.*: (.*)!!/` in `t`: `!!` at `i`, `: ` at `j`, `!!` at `k`,
   * and no line terminator between the first `!!` and the last.
   */
  predicate RegexMatch(t: string, i: int, j: int, k: int) {
    Bangs(t, i) && i + 2 <= j && ColonSpace(t, j) && j + 2 <= k && Bangs(t, k) && OneLine(t, i + 2, k)
  }

  /** Among the matches from `i`, the one with the longest first `.*`, then the longest second `.*`. */
  ghost predicate Greedy(t: string, i: int, j: int, k: int) {
    RegexMatch(t, i, j, k)
    && forall j', k' :: RegexMatch(t, i, j', k') ==> j' <= j && (j' == j ==> k' <= k)
  }

  /** The match a backtracking engine reports: the leftmost start, then the greedy choice from it. */
  ghost predicate ChosenMatch(t: string, i: int, j: int, k: int) {
    Greedy(t, i, j, k) && forall i', j', k' :: RegexMatch(t, i', j', k') ==> i <= i'
  }

  /** The first line terminator at or after `p`, or the end of `t`. */
  function LineEnd(t: string, p: nat): (e: nat)
    requires p <= |t|
    ensures p <= e <= |t| && OneLine(t, p, e) && (e < |t| ==> IsLineTerminator(t[e]))
    decreases |t| - p
  {
    if p == |t| || IsLineTerminator(t[p]) then p else LineEnd(t, p + 1)
  }

  /** The last position `p`, with `lo <= p` and `p + 2 <= hi`, where `c0 c1` stands. */
  function LastAt(t: string, c0: char, c1: char, lo: nat, hi: int): (r: Option<nat>)
    requires hi <= |t|
    ensures r.Some? ==> lo <= r.value && r.value + 2 <= hi && At2(t, r.value, c0, c1)
    ensures forall p :: lo <= p && p + 2 <= hi && At2(t, p, c0, c1) ==> r.Some? && p <= r.value
    decreases hi - lo
  {
    if hi - 2 < lo then None
    else if At2(t, hi - 2, c0, c1) then Some(hi - 2)
    else LastAt(t, c0, c1, lo, hi - 1)
  }

  /** Every match from `i` ends, with its closing `!!`, before the line does. */
  lemma MatchesInLine(t: string, i: nat)
    requires i + 2 <= |t|
    ensures forall j, k :: RegexMatch(t, i, j, k) ==> k + 2 <= LineEnd(t, i + 2)
  {
  }

  /**
   * For `!!` at `i`: the last `: ` and the last `!!` that a match from `i` can
   * use, or none when no match starts at `i`.
   */
  function MatchFrom(t: string, i: nat): (m: Option<(nat, nat)>)
    requires Bangs(t, i)
    ensures m.Some? ==> RegexMatch(t, i, m.value.0, m.value.1)
    ensures forall j, k :: RegexMatch(t, i, j, k) ==> m.Some? && j <= m.value.0 && k <= m.value.1
  {
    MatchesInLine(t, i);
    var e := LineEnd(t, i + 2);
    var kk := LastAt(t, '!', '!', i + 4, e);
    if kk.None? then None
    else
      var jj := LastAt(t, ':', ' ', i + 2, kk.value);
      if jj.None? then None else Some((jj.value, kk.value))
  }

  /** The leftmost match starting at or after `i`. */
  function FirstMatchFrom(t: string, i: nat): (m: Option<(nat, nat, nat)>)
    ensures m.Some? ==> i <= m.value.0 && Greedy(t, m.value.0, m.value.1, m.value.2)
    ensures forall a, j, k :: i <= a && RegexMatch(t, a, j, k) ==> m.Some? && m.value.0 <= a
    decreases |t| - i
  {
    if i + 1 >= |t| then None
    else if Bangs(t, i) && MatchFrom(t, i).Some? then Some((i, MatchFrom(t, i).value.0, MatchFrom(t, i).value.1))
    else FirstMatchFrom(t, i + 1)
  }

  /** The match `replace` acts on: none exactly when the pattern does not occur, else the one JavaScript picks. */
  function RegexFind(t: string): (m: Option<(nat, nat, nat)>)
    ensures m.None? <==> forall i, j, k :: !RegexMatch(t, i, j, k)
    ensures m.Some? ==> ChosenMatch(t, m.value.0, m.value.1, m.value.2)
  {
    FirstMatchFrom(t, 0)
  }

  /**
   * `teacher.replace(/!!.*: (.*)!!/, '$1')`: the first match is replaced by
   * its group; text without a match is returned unchanged.
   */
  function Unwrap(teacher: string): string {
    match RegexFind(teacher)
    case None => teacher
    case Some((i, j, k)) => teacher[..i] + teacher[j + 2..k] + teacher[k + 2..]
  }

  /** Text without `: ` or without `!!` has no match, so `replace` leaves it alone. */
  lemma UnwrapUnmatched(t: string)
    requires (forall p :: !ColonSpace(t, p)) || (forall p :: !Bangs(t, p))
    ensures Unwrap(t) == t
  {
  }

  /** The unassignable marker holds no `: `, so it is left as it is. */
  lemma UnwrapUnassignable()
    ensures Unwrap(UnassignableMarker) == UnassignableMarker
  {
    UnwrapUnmatched(UnassignableMarker);
  }

  /** What `$1` keeps of a conflict marker: the text after the last `: ` of the name, or the whole name. */
  function AfterLastColonSpace(name: string): (r: string)
    ensures (forall q :: !ColonSpace(name, q)) ==> r == name
  {
    match LastAt(name, ':', ' ', 0, |name|)
    case None => name
    case Some(q) => assert ColonSpace(name, q); name[q + 2..]
  }

  /**
   * On a conflict marker whose name holds no line terminator the greedy
   * pattern keeps only the text after the name's last `: `; so the name comes
   * back whole exactly when it holds no `: `.
   */
  lemma UnwrapMarkers(name: string)
    requires OneLine(name, 0, |name|)
    ensures Unwrap(LockConflictMarker(name)) == AfterLastColonSpace(name)
    ensures Unwrap(DesignatedConflictMarker(name)) == AfterLastColonSpace(name)
  {
    UnwrapMarker(LockPrefix, name);
    UnwrapMarker(DesignatedPrefix, name);
  }

  lemma UnwrapMarker(prefix: string, name: string)
    requires prefix == LockPrefix || prefix == DesignatedPrefix
    requires OneLine(name, 0, |name|)
    ensures Unwrap(prefix + name + MarkerPrefix) == AfterLastColonSpace(name)
  {
    MarkerText(prefix, name);
    MarkerOneLine(prefix, name);
    MarkerColonSpaces(prefix, name);
    UnwrapMarkerText(prefix + name + MarkerPrefix, name);
  }

  /** `UnwrapMarker` on any text laid out as a conflict marker around `name`. */
  lemma UnwrapMarkerText(t: string, name: string)
    requires |t| == |name| + 10 && Bangs(t, 0) && ColonSpace(t, 6) && Bangs(t, |name| + 8)
    requires forall p :: 0 <= p < |name| ==> t[8 + p] == name[p]
    requires OneLine(t, 2, |name| + 8)
    requires forall p :: ColonSpace(t, p) && p + 2 <= |name| + 8 ==> p == 6 || (p >= 8 && ColonSpace(name, p - 8))
    ensures Unwrap(t) == AfterLastColonSpace(name)
  {
    var K := 8 + |name|;
    var last := LastAt(name, ':', ' ', 0, |name|);
    var J := if last.Some? then 8 + last.value else 6;
    assert ColonSpace(t, J) by {
      if last.Some? { assert t[J] == name[last.value] && t[J + 1] == name[last.value + 1]; }
    }
    forall p | ColonSpace(t, p) && p + 2 <= K ensures p <= J {
      if p != 6 { assert ColonSpace(name, p - 8); }
    }
    assert RegexMatch(t, 0, J, K);
    FoundFromStart(t, J, K);
    MarkerSlice(t, name, J - 6);
  }

  lemma MarkerSlice(t: string, name: string, d: nat)
    requires |t| == |name| + 10 && d <= |name|
    requires forall p :: 0 <= p < |name| ==> t[8 + p] == name[p]
    ensures t[8 + d..8 + |name|] == name[d..]
  {
  }

  /**
   * A match from the very start that closes on the last two characters, with
   * no later `: ` before them, is the one `replace` acts on.
   */
  lemma FoundFromStart(t: string, J: nat, K: nat)
    requires RegexMatch(t, 0, J, K) && K + 2 == |t|
    requires forall p :: ColonSpace(t, p) && p + 2 <= K ==> p <= J
    ensures RegexFind(t) == Some((0, J, K))
    ensures Unwrap(t) == t[J + 2..K]
  {
    var m := RegexFind(t);
    var i, j, k := m.value.0, m.value.1, m.value.2;
    assert i == 0 && k <= K;
    assert j <= J;
    assert j == J && k == K;
  }

  /** The characters of a conflict marker: the eight of the prefix, the name, then `!!`. */
  lemma MarkerText(prefix: string, name: string)
    requires prefix == LockPrefix || prefix == DesignatedPrefix
    ensures var t := prefix + name + MarkerPrefix;
      |t| == |name| + 10 && Bangs(t, 0) && ColonSpace(t, 6) && Bangs(t, |name| + 8)
      && (forall p :: 0 <= p < |name| ==> t[8 + p] == name[p])
      && (forall p :: 0 <= p < 8 ==> t[p] == prefix[p])
  {
  }

  lemma MarkerOneLine(prefix: string, name: string)
    requires prefix == LockPrefix || prefix == DesignatedPrefix
    requires OneLine(name, 0, |name|)
    ensures OneLine(prefix + name + MarkerPrefix, 2, |name| + 8)
  {
    var t := prefix + name + MarkerPrefix;
    MarkerText(prefix, name);
    assert forall p :: 2 <= p < 8 ==> !IsLineTerminator(prefix[p]);
    forall p | 2 <= p < |name| + 8 ensures !IsLineTerminator(t[p]) {
      if p >= 8 { assert t[p] == name[p - 8]; } else { assert t[p] == prefix[p]; }
    }
  }

  /** The `: ` before the closing `!!` of a marker are the prefix's and the name's own. */
  lemma MarkerColonSpaces(prefix: string, name: string)
    requires prefix == LockPrefix || prefix == DesignatedPrefix
    ensures var t := prefix + name + MarkerPrefix;
      forall p :: ColonSpace(t, p) && p + 2 <= |name| + 8 ==> p == 6 || (p >= 8 && ColonSpace(name, p - 8))
  {
    var t := prefix + name + MarkerPrefix;
    MarkerText(prefix, name);
    assert forall p :: 0 <= p < 6 ==> prefix[p] != ':';
    assert prefix[7] == ' ';
    forall p | ColonSpace(t, p) && p + 2 <= |name| + 8 ensures p == 6 || (p >= 8 && ColonSpace(name, p - 8)) {
      if p >= 8 {
        assert t[p] == name[p - 8] && t[p + 1] == name[p - 7];
      } else {
        assert t[p] == prefix[p];
      }
    }
  }

  /** The greedy pattern on a marker for the name `A: B` gives back `B`. */
  lemma UnwrapKeepsLastPart()
    ensures Unwrap(LockConflictMarker("A: B")) == "B"
    ensures Unwrap(DesignatedConflictMarker("A: B")) == "B"
  {
    var name := "A: B";
    assert OneLine(name, 0, |name|);
    assert !ColonSpace(name, 2);
    assert LastAt(name, ':', ' ', 0, 4) == Some(1);
    UnwrapMarkers(name);
  }

  // ---------------------------------------------------------------------------
  // Clock times and dates

  /** The `HH:MM` text that the file parser produces. */
  predicate IsClockText(t: string) {
    |t| == 5 && IsDigit(t[0]) && IsDigit(t[1]) && t[2] == ':' && IsDigit(t[3]) && IsDigit(t[4])
  }

  /** Minutes since midnight of an `HH:MM` text; any other text reads as 0. */
  function ClockMinutes(t: string): int {
    if IsClockText(t)
    then (DigitValue(t[0]) * 10 + DigitValue(t[1])) * 60 + DigitValue(t[3]) * 10 + DigitValue(t[4])
    else 0
  }

  /** `calculateDuration(start, end)`: minutes from `start` to `end` on one reference day. */
  function Duration(startTime: string, endTime: string): int {
    ClockMinutes(endTime) - ClockMinutes(startTime)
  }

  /**
   * For zero-padded times (minutes below 60), comparing the texts as the source
   * does (`a.endTime <= s.startTime`) agrees with comparing the clock values.
   */
  lemma {:induction false} ClockOrderAgrees(a: string, b: string)
    requires IsClockText(a) && IsClockText(b) && a[3] <= '5' && b[3] <= '5'
    ensures StrLe(a, b) <==> ClockMinutes(a) <= ClockMinutes(b)
  {
    var ha, hb := DigitValue(a[0]) * 10 + DigitValue(a[1]), DigitValue(b[0]) * 10 + DigitValue(b[1]);
    var ma, mb := DigitValue(a[3]) * 10 + DigitValue(a[4]), DigitValue(b[3]) * 10 + DigitValue(b[4]);
    assert ma < 60 && mb < 60;
    StrLeFive(a, b);
    assert (a[0] < b[0] || (a[0] == b[0] && a[1] < b[1])) <==> ha < hb;
    assert (a[0] == b[0] && a[1] == b[1]) <==> ha == hb;
    assert (a[3] < b[3] || (a[3] == b[3] && a[4] <= b[4])) <==> ma <= mb;
    assert ClockMinutes(a) == ha * 60 + ma && ClockMinutes(b) == hb * 60 + mb;
  }

  /** `StrLe` on two five-character texts, written out position by position. */
  lemma StrLeFive(a: string, b: string)
    requires |a| == 5 && |b| == 5 && a[2] == b[2]
    ensures StrLe(a, b) <==>
      (a[0] < b[0] || (a[0] == b[0] && (a[1] < b[1] || (a[1] == b[1]
        && (a[3] < b[3] || (a[3] == b[3] && a[4] <= b[4]))))))
  {
    var a1, b1 := a[1..], b[1..];
    var a2, b2 := a1[1..], b1[1..];
    var a3, b3 := a2[1..], b2[1..];
    var a4, b4 := a3[1..], b3[1..];
    assert a4[1..] == [] && b4[1..] == [];
    assert StrLe(a4, b4) <==> a[4] <= b[4];
    assert StrLe(a3, b3) <==> (a[3] < b[3] || (a[3] == b[3] && a[4] <= b[4]));
    assert StrLe(a2, b2) <==> StrLe(a3, b3);
  }

  /** The date parts `[year, month, day]` of the canonical `Y/M/D` text; other text reads as `[0, 0, 0]`. */
  function DateParts(d: string): (r: seq<int>)
    ensures |r| == 3
  {
    var parts := Split(d, '/');
    if |parts| == 3 && parts[0] != [] && parts[1] != [] && parts[2] != []
       && AllDigits(parts[0]) && AllDigits(parts[1]) && AllDigits(parts[2])
    then [DigitsValue(parts[0]), DigitsValue(parts[1]), DigitsValue(parts[2])]
    else [0, 0, 0]
  }

  /** The sort key of `new Date(`${date} ${time}`)`: calendar date, then minutes. */
  function Instant(date: string, time: string): (k: seq<int>)
    ensures |k| == 4
  {
    DateParts(date) + [ClockMinutes(time)]
  }

  /** The sort key of `new Date(`${a.date} ${a.startTime}`)`. */
  function StartInstant(a: Assignment): seq<int> { Instant(a.date, a.startTime) }

  // ---------------------------------------------------------------------------
  // Session and exclusion keys

  /** `${date}_${startTime}_${endTime}`. */
  function SessionId(date: string, startTime: string, endTime: string): string {
    date + "_" + startTime + "_" + endTime
  }

  /** The key that excludes a teacher from every room of a session. */
  function AllKey(sessionId: string): string { sessionId + "_all" }

  /** The key that excludes a teacher from one room of a session. */
  function LocationKey(sessionId: string, location: string): string { sessionId + "_" + location }

  /** The teacher's exclusion set holds the session key or the room key of this date, time and room. */
  predicate ExcludedFrom(excl: Exclusions, teacher: string, date: string, startTime: string, endTime: string, location: string) {
    teacher in excl
    && (AllKey(SessionId(date, startTime, endTime)) in excl[teacher]
        || LocationKey(SessionId(date, startTime, endTime), location) in excl[teacher])
  }

  /** `!(aEnd <= bStart || aStart >= bEnd)`: half-open intervals compared as text. */
  predicate TimesOverlap(aStart: string, aEnd: string, bStart: string, bEnd: string) {
    !(StrLe(aEnd, bStart) || StrLe(bEnd, aStart))
  }

  /** Touching intervals do not overlap. */
  lemma BackToBackDoNotOverlap(aStart: string, mid: string, bEnd: string)
    ensures !TimesOverlap(aStart, mid, mid, bEnd)
  {
    StrLeRefl(mid);
  }

  lemma {:induction false} StrLeRefl(a: string)
    ensures StrLe(a, a)
    decreases |a|
  {
    if a != [] { StrLeRefl(a[1..]); }
  }

  /** Overlap is symmetric in its two intervals. */
  lemma OverlapSymmetric(aStart: string, aEnd: string, bStart: string, bEnd: string)
    ensures TimesOverlap(aStart, aEnd, bStart, bEnd) <==> TimesOverlap(bStart, bEnd, aStart, aEnd)
  {
  }
}
