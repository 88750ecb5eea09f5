/**
 * The workload panel: each teacher's duties in the current result, the
 * running totals with the earlier terms, the ranking by total minutes, the
 * text shown for a number of minutes, and the badge of each rank.
 */
module Statistics {
  import opened Common
  import opened Text
  import opened Sorting
  import opened Domain

  /** `TeacherStats`: the current term's load and the total with history. */
  datatype TeacherStats = TeacherStats(name: string, current: Load, total: Load, department: string)

  // ---------------------------------------------------------------------------
  // Durations

  /** `calculateDuration` is `Duration`: measuring across a middle time adds up. */
  lemma DurationAdds(a: string, b: string, c: string)
    ensures Duration(a, b) + Duration(b, c) == Duration(a, c)
    ensures Duration(a, a) == 0 && Duration(b, a) == -Duration(a, b)
  {
  }

  // ---------------------------------------------------------------------------
  // The per-teacher figures

  function Duty(name: string): Assignment -> bool {
    a => IsDutyOf(a, name)
  }

  /** The `reduce` over the filtered assignments: one more duty and its minutes per element. */
  function Accumulate(duties: seq<Assignment>): Load {
    if duties == [] then Load(0, 0)
    else
      var a := duties[|duties| - 1];
      AddLoad(Accumulate(duties[..|duties| - 1]), Load(1, Duration(a.startTime, a.endTime)))
  }

  /** Folding over the filtered list gives the teacher's current load. */
  lemma {:induction false} AccumulateDuties(s: seq<Assignment>, name: string)
    ensures Accumulate(Filter(s, Duty(name))) == CurrentLoad(s, name)
  {
    if s != [] {
      var init, a := s[..|s| - 1], s[|s| - 1];
      AccumulateDuties(init, name);
      assert init + [a] == s;
      CurrentLoadSnoc(init, a, name);
      if IsDutyOf(a, name) {
        var f := Filter(init, Duty(name));
        assert (f + [a])[..|f|] == f;
      } else {
        assert !Duty(name)(a);
        assert Filter(s, Duty(name)) == Filter(init, Duty(name)) + [];
        assert Filter(s, Duty(name)) == Filter(init, Duty(name));
      }
    }
  }

  /** The stat of one teacher-list entry. */
  function StatOf(t: Teacher, assignments: seq<Assignment>, h: HistoricalStats): (r: TeacherStats)
    ensures r.name == t.name && r.department == t.department
    ensures r.current == CurrentLoad(assignments, t.name)
    ensures r.total == AddLoad(CurrentLoad(assignments, t.name), HistoryOf(h, t.name))
  {
    AccumulateDuties(assignments, t.name);
    var current := Accumulate(Filter(assignments, Duty(t.name)));
    var historical := if t.name in h then h[t.name] else Load(0, 0);
    TeacherStats(t.name, current, Load(current.count + historical.count, current.duration + historical.duration), t.department)
  }

  /** `teachers.map(...)` before sorting. */
  function StatsInOrder(teachers: seq<Teacher>, assignments: seq<Assignment>, h: HistoricalStats): (r: seq<TeacherStats>)
    ensures |r| == |teachers|
    ensures forall i :: 0 <= i < |teachers| ==> r[i] == StatOf(teachers[i], assignments, h)
  {
    seq(|teachers|, i requires 0 <= i < |teachers| => StatOf(teachers[i], assignments, h))
  }

  /** `(a, b) => b.total.duration - a.total.duration` as an ascending key. */
  function StatKey(s: TeacherStats): seq<int> { [-s.total.duration] }

  /** The `stats` memo: the stats sorted by descending total minutes (a stable sort). */
  function Stats(teachers: seq<Teacher>, assignments: seq<Assignment>, h: HistoricalStats): seq<TeacherStats> {
    SortBy(StatsInOrder(teachers, assignments, h), StatKey)
  }

  /**
   * One stat per teacher-list entry, highest total minutes first, and
   * entries with equal totals in teacher-list order.
   */
  lemma StatsRanking(teachers: seq<Teacher>, assignments: seq<Assignment>, h: HistoricalStats)
    ensures var r, u := Stats(teachers, assignments, h), StatsInOrder(teachers, assignments, h);
      |r| == |teachers|
      && multiset(r) == multiset(u)
      && (forall i, j :: 0 <= i < j < |r| ==> r[i].total.duration >= r[j].total.duration)
      && forall k :: Tied(r, StatKey, k) == Tied(u, StatKey, k)
  {
    var u := StatsInOrder(teachers, assignments, h);
    var r := SortBy(u, StatKey);
    SortByPermutation(u, StatKey);
    SortBySorted(u, StatKey);
    SortedDescending(r);
    forall k ensures Tied(r, StatKey, k) == Tied(u, StatKey, k) {
      SortByStable(u, StatKey, k);
    }
  }

  /** Ascending by `StatKey` is descending by total minutes. */
  lemma SortedDescending(r: seq<TeacherStats>)
    requires SortedBy(r, StatKey)
    ensures forall i, j :: 0 <= i < j < |r| ==> r[i].total.duration >= r[j].total.duration
  {
    forall i, j | 0 <= i < j < |r| ensures r[i].total.duration >= r[j].total.duration {
      assert LexLe(StatKey(r[i]), StatKey(r[j]));
    }
  }

  // ---------------------------------------------------------------------------
  // `formatDuration`

  /** JavaScript `m % 60`: the remainder takes the sign of `m`. */
  function JsRem60(m: int): (r: int)
    ensures m >= 0 ==> r == m % 60
    ensures m < 0 ==> -60 < r <= 0
  {
    if m >= 0 then m % 60 else -((-m) % 60)
  }

  const HourUnit: string := "小时 "
  const MinuteUnit: string := "分钟"

  /**
   * `formatDuration`: `0分钟` for zero; otherwise the hour part (when the
   * whole hours are positive) followed by the minute part (when the
   * remainder is positive). Only the minute part is trimmed.
   */
  function FormatDuration(minutes: int): string {
    if minutes == 0 then "0" + MinuteUnit
    else
      var hours := minutes / 60;
      var mins := JsRem60(minutes);
      HourText(hours) + Trim(MinuteText(mins))
  }

  /** `hours > 0 ? `${hours}小时 ` : ''`. */
  function HourText(hours: int): string {
    if hours > 0 then NatToString(hours) + HourUnit else ""
  }

  /** `mins > 0 ? `${mins}分钟` : ''`. */
  function MinuteText(mins: int): string {
    if mins > 0 then NatToString(mins) + MinuteUnit else ""
  }

  /** The minute part has no surrounding space, so trimming it changes nothing. */
  lemma MinuteTextTrimmed(mins: int)
    ensures Trim(MinuteText(mins)) == MinuteText(mins)
  {
    var s := MinuteText(mins);
    if mins > 0 {
      assert s[0] == NatToString(mins)[0] && s[|s| - 1] == '钟';
    }
    TrimmedIsTrim(s);
  }

  /** The hour part keeps its trailing space when there is no minute part: one hour reads `1小时 `. */
  lemma FormatWholeHours(minutes: int)
    requires minutes > 0 && minutes % 60 == 0
    ensures FormatDuration(minutes) == NatToString(minutes / 60) + HourUnit
  {
    MinuteTextTrimmed(0);
  }

  lemma FormatOneHour()
    ensures FormatDuration(60) == "1小时 "
  {
    FormatWholeHours(60);
    OneHourText();
  }

  lemma OneHourText()
    ensures NatToString(60 / 60) + HourUnit == "1小时 "
  {
    assert DigitChar(1) == '1';
  }

  /** A negative number of minutes shows as the empty text. */
  lemma FormatNegative(minutes: int)
    requires minutes < 0
    ensures FormatDuration(minutes) == ""
  {
    MinuteTextTrimmed(JsRem60(minutes));
  }

  /** The number a text starts with, 0 when it starts with no digit. */
  function LeadingNumber(s: string): nat {
    var k := PrefixLength(s, IsDigit);
    if k > 0 then DigitsValue(s[..k]) else 0
  }

  /** Reads a text of the form `formatDuration` writes back as minutes. */
  function ReadDuration(s: string): int {
    if s == "0" + MinuteUnit then 0
    else
      var n := PrefixLength(s, IsDigit);
      if n > 0 && StartsWith(s[n..], HourUnit) then DigitsValue(s[..n]) * 60 + LeadingNumber(s[n + |HourUnit|..])
      else LeadingNumber(s)
  }

  /** A digit run followed by a non-digit (or nothing) is the whole digit prefix. */
  lemma {:induction false} PrefixOfDigits(d: string, rest: string)
    requires AllDigits(d) && (rest == [] || !IsDigit(rest[0]))
    ensures PrefixLength(d + rest, IsDigit) == |d|
    ensures (d + rest)[..|d|] == d && (d + rest)[|d|..] == rest
  {
    if d != [] {
      assert (d + rest)[1..] == d[1..] + rest;
      PrefixOfDigits(d[1..], rest);
    }
  }

  lemma LeadingNumberOf(m: nat, rest: string)
    requires rest == [] || !IsDigit(rest[0])
    ensures LeadingNumber(NatToString(m) + rest) == m
  {
    PrefixOfDigits(NatToString(m), rest);
    NatToStringValue(m);
  }

  /** A text that starts with the hour part reads as those hours plus the number after it. */
  lemma ReadHourPart(h: nat, tail: string)
    ensures ReadDuration(NatToString(h) + HourUnit + tail) == h * 60 + LeadingNumber(tail)
  {
    var hs := NatToString(h);
    NatToStringValue(h);
    ReadDigitsHour(hs, tail);
  }

  /** A digit run, the hour unit and a tail read as the run's value in hours plus the tail's number. */
  lemma ReadDigitsHour(hs: string, tail: string)
    requires hs != [] && AllDigits(hs)
    ensures ReadDuration(hs + HourUnit + tail) == DigitsValue(hs) * 60 + LeadingNumber(tail)
  {
    var rest := HourUnit + tail;
    var s := hs + HourUnit + tail;
    assert s == hs + rest;
    assert rest[0] == '小';
    PrefixOfDigits(hs, rest);
    assert rest[..|HourUnit|] == HourUnit;
    assert s[|hs|..] == rest;
    assert s[|hs| + |HourUnit|..] == tail;
    NotZeroMinutes(hs, rest);
  }

  /** A digit run followed by the hour unit is not the special text `0分钟`. */
  lemma NotZeroMinutes(hs: string, rest: string)
    requires hs != [] && AllDigits(hs) && rest != [] && rest[0] == '小'
    ensures hs + rest != "0" + MinuteUnit
  {
    var s := hs + rest;
    if |hs| == 1 { assert s[1] == '小'; } else { assert s[1] == hs[1]; assert IsDigit(s[1]); }
  }

  /** The minute part alone reads as its number. */
  lemma ReadMinutePart(m: nat)
    requires m > 0
    ensures ReadDuration(NatToString(m) + MinuteUnit) == m
  {
    var ms := NatToString(m);
    var s := ms + MinuteUnit;
    PrefixOfDigits(ms, MinuteUnit);
    LeadingNumberOf(m, MinuteUnit);
    assert s[|ms|..] == MinuteUnit;
  }

  /** What `formatDuration` shows for a non-negative number of minutes reads back as that number. */
  lemma ReadFormatted(minutes: int)
    requires minutes >= 0
    ensures ReadDuration(FormatDuration(minutes)) == minutes
  {
    if minutes > 0 {
      var hours, mins := minutes / 60, minutes % 60;
      assert minutes == hours * 60 + mins;
      FormatParts(minutes);
      ReadParts(hours, mins);
    }
  }

  /** A positive duration shows as its hour part followed by its untrimmed minute part. */
  lemma FormatParts(minutes: int)
    requires minutes > 0
    ensures FormatDuration(minutes) == HourText(minutes / 60) + MinuteText(minutes % 60)
  {
    MinuteTextTrimmed(minutes % 60);
  }

  /** An hour part followed by a minute part reads back as the minutes they stand for. */
  lemma ReadParts(hours: int, mins: int)
    requires hours >= 0 && 0 <= mins < 60 && (hours > 0 || mins > 0)
    ensures ReadDuration(HourText(hours) + MinuteText(mins)) == hours * 60 + mins
  {
    var tail := MinuteText(mins);
    if hours > 0 {
      ReadHourPart(hours, tail);
      assert HourText(hours) + tail == NatToString(hours) + HourUnit + tail;
      if mins > 0 {
        LeadingNumberOf(mins, MinuteUnit);
      } else {
        assert LeadingNumber(tail) == 0;
      }
    } else {
      assert HourText(hours) + tail == tail;
      ReadMinutePart(mins);
    }
  }

  // ---------------------------------------------------------------------------
  // `getStatsBadge`

  datatype Badge = Badge(bg: string, border: string, icon: string)

  const Gold: string := "🥇"
  const Silver: string := "🥈"
  const Bronze: string := "🥉"
  const Chart: string := "📊"
  const Seedling: string := "🌱"
  const Person: string := "👤"

  /** The badge of the stat at `index` in a ranking of `total` stats. */
  function GetStatsBadge(index: int, total: int): Badge {
    if index == 0 then Badge("bg-red-50", "border-red-200", Gold)
    else if index == 1 then Badge("bg-orange-50", "border-orange-200", Silver)
    else if index == 2 then Badge("bg-yellow-50", "border-yellow-200", Bronze)
    else if index < 5 then Badge("bg-blue-50", "border-blue-200", Chart)
    else if index >= total - 3 then Badge("bg-green-50", "border-green-200", Seedling)
    else Badge("bg-white", "border-gray-200", Person)
  }

  /** How many of the first `k` ranks get `icon`. */
  function IconCount(k: nat, total: int, icon: string): nat {
    if k == 0 then 0 else IconCount(k - 1, total, icon) + (if GetStatsBadge(k - 1, total).icon == icon then 1 else 0)
  }

  function Max(a: int, b: int): int { if a >= b then a else b }

  /**
   * Among the first `k` ranks, the 🌱 badge goes to those at or after both
   * rank 5 and rank `total - 3`: in a ranking of eight or more, exactly the
   * last three; in a shorter one, every rank after the fifth.
   */
  lemma {:induction false} SeedlingCount(k: nat, total: int)
    ensures IconCount(k, total, Seedling) == Max(0, k - Max(5, total - 3))
  {
    if k > 0 {
      SeedlingCount(k - 1, total);
    }
  }

  /** Each medal goes to exactly one rank of a non-empty ranking, and the top five never get 🌱. */
  lemma {:induction false} MedalCount(k: nat, total: int)
    ensures IconCount(k, total, Gold) == (if k >= 1 then 1 else 0)
    ensures IconCount(k, total, Silver) == (if k >= 2 then 1 else 0)
    ensures IconCount(k, total, Bronze) == (if k >= 3 then 1 else 0)
    ensures IconCount(k, total, Chart) == (if k >= 5 then 2 else Max(0, k - 3))
  {
    if k > 0 {
      MedalCount(k - 1, total);
    }
  }
}
