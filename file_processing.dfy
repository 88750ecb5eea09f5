/**
 * Reading the two import tables: CSV text into header and rows, header
 * lookup by synonyms, date and time normalisation, and the row rules that
 * turn rows into teachers and exam rooms.
 */
module FileProcessing {
  import opened Common
  import opened Text
  import opened Domain
  import Validation

  /** `FileProcessingResult<T>`. */
  datatype FileResult<T> = FileResult(data: seq<T>, errors: seq<string>, warnings: seq<string>)

  type Row = seq<string>

  /** The header row and the data rows of a file. */
  datatype Table = Table(headers: Row, rows: seq<Row>)

  // ---------------------------------------------------------------------------
  // CSV text

  /** `replace(/\r\n/g, '\n')`. */
  function ReplaceCrLf(s: string): (r: string)
    ensures |r| <= |s|
  {
    if s == [] then []
    else if |s| >= 2 && s[0] == '\r' && s[1] == '\n' then "\n" + ReplaceCrLf(s[2..])
    else [s[0]] + ReplaceCrLf(s[1..])
  }

  /** `replace(/\r/g, '\n')`. */
  function ReplaceCr(s: string): (r: string)
    ensures |r| == |s| && '\r' !in r
  {
    if s == [] then [] else [if s[0] == '\r' then '\n' else s[0]] + ReplaceCr(s[1..])
  }

  function NormalizeNewlines(s: string): string {
    ReplaceCr(ReplaceCrLf(s))
  }

  /** Text without carriage returns is left as it is; otherwise none remains. */
  lemma {:induction false} NormalizeNewlinesExact(s: string)
    ensures '\r' !in NormalizeNewlines(s)
    ensures '\r' !in s ==> NormalizeNewlines(s) == s
  {
    if '\r' !in s {
      NoCrUnchanged(s);
    }
  }

  lemma {:induction false} NoCrUnchanged(s: string)
    requires '\r' !in s
    ensures ReplaceCrLf(s) == s && ReplaceCr(s) == s
  {
    if s != [] {
      assert '\r' !in s[1..];
      NoCrUnchanged(s[1..]);
      assert [s[0]] + s[1..] == s;
    }
  }

  /** The state of the cell loop of `parseCSV`. */
  datatype Scan = Scan(cells: seq<string>, current: string, inQuotes: bool)

  /** One character: a quote toggles quoted mode and is dropped, an unquoted comma ends a cell. */
  function ScanChar(st: Scan, c: char): Scan {
    if c == '"' then st.(inQuotes := !st.inQuotes)
    else if c == ',' && !st.inQuotes then Scan(st.cells + [Trim(st.current)], "", st.inQuotes)
    else st.(current := st.current + [c])
  }

  function ScanLine(line: string): Scan {
    if line == [] then Scan([], "", false)
    else ScanChar(ScanLine(line[..|line| - 1]), line[|line| - 1])
  }

  /** The trimmed cells of one line. */
  function Cells(line: string): Row {
    var st := ScanLine(line);
    st.cells + [Trim(st.current)]
  }

  /** The character loop of `parseCSV` for one line. */
  method SplitCells(line: string) returns (cells: Row)
    ensures cells == Cells(line)
  {
    cells := [];
    var current := "";
    var inQuotes := false;
    for i := 0 to |line|
      invariant Scan(cells, current, inQuotes) == ScanLine(line[..i])
    {
      assert line[..i + 1][..i] == line[..i];
      var c := line[i];
      if c == '"' {
        inQuotes := !inQuotes;
      } else if c == ',' && !inQuotes {
        cells := cells + [Trim(current)];
        current := "";
      } else {
        current := current + [c];
      }
    }
    assert line[..|line|] == line;
    cells := cells + [Trim(current)];
  }

  /** Whether an odd number of quotes has been read. */
  function InQuotes(s: string): bool {
    if s == [] then false else InQuotes(s[..|s| - 1]) != (s[|s| - 1] == '"')
  }

  lemma {:induction false} InQuotesParity(s: string)
    ensures InQuotes(s) <==> Occurrences(s, '"') % 2 == 1
  {
    if s != [] {
      InQuotesParity(s[..|s| - 1]);
    }
  }

  /** Commas outside quotes: those preceded by an even number of quotes. */
  function UnquotedCommas(s: string): nat {
    if s == [] then 0
    else UnquotedCommas(s[..|s| - 1]) + (if s[|s| - 1] == ',' && !InQuotes(s[..|s| - 1]) then 1 else 0)
  }

  lemma {:induction false} ScanLineCount(line: string)
    ensures |ScanLine(line).cells| == UnquotedCommas(line) && ScanLine(line).inQuotes == InQuotes(line)
  {
    if line != [] {
      ScanLineCount(line[..|line| - 1]);
    }
  }

  /** No white space at either end. */
  predicate Trimmed(s: string) {
    s == [] || (!IsSpace(s[0]) && !IsSpace(s[|s| - 1]))
  }

  predicate Clean(cell: string) { '"' !in cell && Trimmed(cell) }

  lemma {:induction false} ScanLineClean(line: string)
    ensures '"' !in ScanLine(line).current
    ensures forall k :: 0 <= k < |ScanLine(line).cells| ==> Clean(ScanLine(line).cells[k])
  {
    if line != [] {
      var init := line[..|line| - 1];
      ScanLineClean(init);
      var st := ScanLine(init);
      if line[|line| - 1] == ',' && !st.inQuotes {
        var t := Trim(st.current);
        assert Clean(t);
        assert ScanLine(line).cells == st.cells + [t];
      }
    }
  }

  /**
   * A line gives one cell more than it has commas outside quotes (the quote
   * count before the comma is even); cells are trimmed and hold no quote.
   */
  lemma CellsShape(line: string)
    ensures |Cells(line)| == UnquotedCommas(line) + 1
    ensures forall k :: 0 <= k < |Cells(line)| ==> Clean(Cells(line)[k])
  {
    ScanLineCount(line);
    ScanLineClean(line);
    var st := ScanLine(line);
    assert Clean(Trim(st.current));
  }

  /** A clean cell is its own trim. */
  lemma CleanIsTrimmed(cell: string)
    requires Clean(cell)
    ensures Trim(cell) == cell
  {
    TrimmedIsTrim(cell);
  }

  function TrimAll(parts: seq<string>): (r: seq<string>)
    ensures |r| == |parts| && forall k :: 0 <= k < |parts| ==> r[k] == Trim(parts[k])
  {
    if parts == [] then [] else TrimAll(parts[..|parts| - 1]) + [Trim(parts[|parts| - 1])]
  }

  predicate NoQuotes(line: string) { forall i :: 0 <= i < |line| ==> line[i] != '"' }

  lemma {:induction false} ScanLineUnquoted(line: string)
    requires NoQuotes(line)
    ensures var parts := Split(line, ',');
      ScanLine(line) == Scan(TrimAll(parts[..|parts| - 1]), parts[|parts| - 1], false)
  {
    if line != [] {
      var init, c := line[..|line| - 1], line[|line| - 1];
      assert line == init + [c];
      assert NoQuotes(init) by {
        forall i | 0 <= i < |init| ensures init[i] != '"' { assert init[i] == line[i]; }
      }
      ScanLineUnquoted(init);
      SplitSnoc(init, c, ',');
      assert ScanLine(line) == ScanChar(ScanLine(init), c);
      UnquotedStep(ScanLine(init), Split(init, ','), c);
    }
  }

  /** Outside quotes, a character other than a quote extends the pieces as splitting at commas does. */
  lemma UnquotedStep(st: Scan, parts: seq<string>, c: char)
    requires |parts| >= 1 && c != '"'
    requires st == Scan(TrimAll(parts[..|parts| - 1]), parts[|parts| - 1], false)
    ensures var q := PushChar(parts, c, ',');
      ScanChar(st, c) == Scan(TrimAll(q[..|q| - 1]), q[|q| - 1], false)
  {
    if c == ',' {
      assert (parts + [""])[..|parts|] == parts;
      assert TrimAll(parts) == TrimAll(parts[..|parts| - 1]) + [Trim(parts[|parts| - 1])];
    } else {
      var q := parts[..|parts| - 1] + [parts[|parts| - 1] + [c]];
      assert q[..|q| - 1] == parts[..|parts| - 1];
    }
  }

  /** Without quotes, the cells are the trimmed pieces between commas. */
  lemma CellsUnquoted(line: string)
    requires NoQuotes(line)
    ensures Cells(line) == TrimAll(Split(line, ','))
  {
    ScanLineUnquoted(line);
  }

  function AllCells(lines: seq<string>): (r: seq<Row>)
    ensures |r| == |lines| && forall k :: 0 <= k < |lines| ==> r[k] == Cells(lines[k])
  {
    if lines == [] then [] else [Cells(lines[0])] + AllCells(lines[1..])
  }

  /** `row.some(cell => cell.length > 0)`. */
  predicate HasContent(row: Row) {
    exists k :: 0 <= k < |row| && |row[k]| > 0
  }

  /** The lines of the text, split into cells, that have a non-empty cell. */
  function ContentRows(text: string): seq<Row> {
    Filter(AllCells(Split(NormalizeNewlines(text), '\n')), HasContent)
  }

  /** The first row is the header. */
  function TableOf(rows: seq<Row>): Table {
    if rows == [] then Table([], []) else Table(rows[0], rows[1..])
  }

  /** `parseCSV` on decoded text. */
  function ParseCsv(text: string): Table {
    TableOf(ContentRows(text))
  }

  /**
   * The header is the first line with content and the rows are the later
   * lines with content, in order; an input without content gives an empty table.
   */
  lemma ParseCsvShape(text: string)
    ensures var t := ParseCsv(text);
      (ContentRows(text) == [] ==> t == Table([], []))
      && (ContentRows(text) != [] ==> [t.headers] + t.rows == ContentRows(text) && HasContent(t.headers))
      && forall k :: 0 <= k < |t.rows| ==> HasContent(t.rows[k])
  {
    TableOfShape(ContentRows(text));
  }

  lemma TableOfShape(rows: seq<Row>)
    requires forall row :: row in rows ==> HasContent(row)
    ensures var t := TableOf(rows);
      (rows == [] ==> t == Table([], []))
      && (rows != [] ==> [t.headers] + t.rows == rows && HasContent(t.headers))
      && forall k :: 0 <= k < |t.rows| ==> HasContent(t.rows[k])
  {
    if rows != [] {
      assert rows[0] in rows;
      forall k | 0 <= k < |rows| - 1
        ensures HasContent(rows[1..][k])
      {
        assert rows[1..][k] in rows;
      }
    }
  }

  // ---------------------------------------------------------------------------
  // Headers and cells

  /** `findHeaderIndex`: the first header whose trimmed text is a candidate, or -1. */
  function FindHeaderIndex(headers: Row, candidates: seq<string>): (i: int)
    ensures -1 <= i < |headers|
    ensures i >= 0 ==> Trim(headers[i]) in candidates && forall j :: 0 <= j < i ==> Trim(headers[j]) !in candidates
    ensures i == -1 <==> forall j :: 0 <= j < |headers| ==> Trim(headers[j]) !in candidates
  {
    FindHeaderFrom(TrimAll(headers), candidates, 0)
  }

  /** The search of `findHeaderIndex` over the trimmed headers, from position `k` on. */
  function FindHeaderFrom(trimmed: seq<string>, candidates: seq<string>, k: nat): (i: int)
    requires k <= |trimmed|
    ensures i == -1 || k <= i < |trimmed|
    ensures i >= 0 ==> trimmed[i] in candidates && forall j :: k <= j < i ==> trimmed[j] !in candidates
    ensures i == -1 ==> forall j :: k <= j < |trimmed| ==> trimmed[j] !in candidates
    decreases |trimmed| - k
  {
    if k == |trimmed| then -1
    else if trimmed[k] in candidates then k
    else FindHeaderFrom(trimmed, candidates, k + 1)
  }

  /** `getCellValue(row[index])`: a missing cell reads as the empty string. */
  function CellAt(row: Row, index: int): (v: string)
    ensures 0 <= index < |row| ==> v == Trim(row[index])
    ensures !(0 <= index < |row|) ==> v == ""
  {
    if 0 <= index < |row| then Trim(row[index]) else ""
  }

  const NameHeaders := ["姓名", "教师姓名", "教师名称", "老师", "教师", "名字", "Name", "name"]
  const DepartmentHeaders := ["部门", "学院", "科室", "系别", "单位", "department", "dept"]
  const DateHeaders := ["日期", "考试日期", "date", "时间"]
  const StartHeaders := ["开始时间", "起始时间", "start", "startTime", "开始", "开考时间"]
  const EndHeaders := ["结束时间", "终止时间", "end", "endTime", "结束", "结考时间"]
  const LocationHeaders := ["考场", "地点", "教室", "location", "场地", "考试地点"]
  const RequiredHeaders := ["人数", "需求人数", "监考人数", "required", "需求", "监考教师数"]

  // ---------------------------------------------------------------------------
  // Times and dates

  /** The digits captured by `^(\d{1,2}):(\d{2})`; any text may follow. */
  function MatchClock(v: string): Option<(string, string)> {
    if |v| >= 5 && IsDigit(v[0]) && IsDigit(v[1]) && v[2] == ':' && IsDigit(v[3]) && IsDigit(v[4])
    then Some((v[..2], v[3..5]))
    else if |v| >= 4 && IsDigit(v[0]) && v[1] == ':' && IsDigit(v[2]) && IsDigit(v[3])
    then Some((v[..1], v[2..4]))
    else None
  }

  /**
   * `parseTime`; `excelTime` stands for the spreadsheet time-fraction branch
   * taken when the text does not start with a clock time.
   */
  function ParseTime(value: string, excelTime: string -> Option<string>): Option<string> {
    if value == "" then None
    else
      match MatchClock(value)
      case Some((h, m)) => Some(Pad2(DigitsValue(h)) + ":" + Pad2(DigitsValue(m)))
      case None => excelTime(value)
  }

  /** A matched time becomes zero-padded `HH:MM` text with the same hours and minutes. */
  lemma ParseTimeClock(value: string, excelTime: string -> Option<string>)
    requires MatchClock(value).Some?
    ensures var (h, m) := MatchClock(value).value;
      var t := ParseTime(value, excelTime);
      t.Some? && IsClockText(t.value) && ClockMinutes(t.value) == 60 * DigitsValue(h) + DigitsValue(m)
  {
    var (h, m) := MatchClock(value).value;
    DigitsValueShort(h);
    DigitsValueShort(m);
  }

  /** Text after the matched time is ignored. */
  lemma ParseTimeIgnoresTail(value: string, tail: string, excelTime: string -> Option<string>)
    requires MatchClock(value).Some?
    ensures ParseTime(value + tail, excelTime) == ParseTime(value, excelTime)
  {
    var v := value + tail;
    assert forall i :: 0 <= i < |value| ==> v[i] == value[i];
    assert v[..1] == value[..1] && v[..2] == value[..2] && v[2..4] == value[2..4];
    if |value| >= 5 {
      assert v[3..5] == value[3..5];
    }
    assert MatchClock(v) == MatchClock(value);
  }

  lemma TwoDigits(s: string)
    requires |s| == 2 && AllDigits(s)
    ensures Pad2(DigitsValue(s)) == s
  {
    DigitsValueShort(s);
    var n := DigitsValue(s);
    var p := Pad2(n);
    assert DigitValue(p[0]) == DigitValue(s[0]) && DigitValue(p[1]) == DigitValue(s[1]);
  }

  /** Normalised times parse back to themselves. */
  lemma ParseTimeIdempotent(t: string, excelTime: string -> Option<string>)
    requires IsClockText(t)
    ensures ParseTime(t, excelTime) == Some(t)
  {
    TwoDigits(t[..2]);
    TwoDigits(t[3..5]);
    assert t == t[..2] + ":" + t[3..5];
  }

  predicate IsDateSeparator(c: char) { c == '-' || c == '/' || c == '.' }

  /** The digits captured by the whole-text `^(\d{4})[-\/.](\d{1,2})[-\/.](\d{1,2})$`. */
  function MatchDate(v: string): Option<(string, string, string)> {
    if |v| < 8 || !AllDigits(v[..4]) || !IsDateSeparator(v[4]) then None
    else
      var rest := v[5..];
      var m := if IsDigit(rest[0]) && IsDateSeparator(rest[1]) then 1
               else if IsDigit(rest[0]) && IsDigit(rest[1]) && IsDateSeparator(rest[2]) then 2
               else 0;
      if m == 0 then None
      else
        var day := rest[m + 1..];
        if 1 <= |day| <= 2 && AllDigits(day) then Some((v[..4], rest[..m], day)) else None
  }

  function DateText(year: nat, month: nat, day: nat): string {
    NatToString(year) + "/" + NatToString(month) + "/" + NatToString(day)
  }

  /**
   * `parseDate`; `excelDate` stands for the spreadsheet serial-number branch
   * taken when the text is not a year-month-day date.
   */
  function ParseDate(value: string, excelDate: string -> Option<string>): Option<string> {
    if value == "" then None
    else
      match MatchDate(value)
      case Some((y, m, d)) => Some(DateText(DigitsValue(y), DigitsValue(m), DigitsValue(d)))
      case None => excelDate(value)
  }

  /**
   * A matched date becomes `Y/M/D` without leading zeros, and the calendar
   * key used to order dates reads back the same year, month and day.
   */
  lemma ParseDateParts(value: string, excelDate: string -> Option<string>)
    requires MatchDate(value).Some?
    ensures var (y, m, d) := MatchDate(value).value;
      var r := ParseDate(value, excelDate);
      r == Some(DateText(DigitsValue(y), DigitsValue(m), DigitsValue(d)))
      && DateParts(r.value) == [DigitsValue(y), DigitsValue(m), DigitsValue(d)]
  {
    var (y, m, d) := MatchDate(value).value;
    DateTextParts(DigitsValue(y), DigitsValue(m), DigitsValue(d));
  }

  lemma DateTextParts(year: nat, month: nat, day: nat)
    ensures DateParts(DateText(year, month, day)) == [year, month, day]
  {
    var a, b, c := NatToString(year), NatToString(month), NatToString(day);
    assert '/' !in a && '/' !in b && '/' !in c;
    assert DateText(year, month, day) == Join([a, b, c], "/") by {
      assert Join([a, b, c], "/") == a + "/" + Join([b, c], "/");
      assert Join([b, c], "/") == b + "/" + Join([c], "/");
    }
    SplitJoin([a, b, c], '/');
    NatToStringValue(year);
    NatToStringValue(month);
    NatToStringValue(day);
  }

  // ---------------------------------------------------------------------------
  // Row rules

  const NoRowsError := "文件中没有找到有效的数据行"
  const NoNameColumnError := "教师名单中未找到\"姓名\"列。请检查表头。"
  const MissingFieldsPrefix := "考场安排表缺少必要字段："
  const DuplicateNamesPrefix := "发现重复姓名："

  /** `第 ${index + 2} 行：…`: the spreadsheet line of a data row. */
  function RowLabel(index: nat): string {
    "第 " + NatToString(index + 2) + " 行："
  }

  function EmptyNameWarning(index: nat): string { RowLabel(index) + "姓名为空，已跳过" }

  function IncompleteRowWarning(index: nat): string { RowLabel(index) + "数据不完整，已跳过" }

  /** The loop state of `processTeacherFile`: the teachers, the warnings, `nameSet` and `duplicateNames` in insertion order. */
  datatype TeacherScan = TeacherScan(teachers: seq<Teacher>, warnings: seq<string>, seen: set<string>, duplicates: seq<string>)

  function TeacherId(stamp: string, index: nat): string {
    "teacher_" + stamp + "_" + NatToString(index)
  }

  function TeacherStep(st: TeacherScan, row: Row, index: nat, nameIndex: int, deptIndex: int, stamp: string): TeacherScan {
    var name := CellAt(row, nameIndex);
    if name == "" then st.(warnings := st.warnings + [EmptyNameWarning(index)])
    else
      var department := if deptIndex != -1 then CellAt(row, deptIndex) else "";
      AddTeacher(st, Teacher(TeacherId(stamp, index), name, department))
  }

  /** A row with a name: the teacher is kept, and its name is a duplicate if seen before. */
  function AddTeacher(st: TeacherScan, t: Teacher): TeacherScan {
    var duplicates := if t.name in st.seen && t.name !in st.duplicates then st.duplicates + [t.name] else st.duplicates;
    TeacherScan(st.teachers + [t], st.warnings, st.seen + {t.name}, duplicates)
  }

  function ScanTeachers(rows: seq<Row>, nameIndex: int, deptIndex: int, stamp: string): TeacherScan {
    if rows == [] then TeacherScan([], [], {}, [])
    else TeacherStep(ScanTeachers(rows[..|rows| - 1], nameIndex, deptIndex, stamp), rows[|rows| - 1], |rows| - 1, nameIndex, deptIndex, stamp)
  }

  /** `processTeacherFile` once the file has been read into a table; `stamp` is `Date.now()`. */
  function TeacherFile(t: Table, stamp: string): FileResult<Teacher> {
    if t.rows == [] then FileResult([], [NoRowsError], [])
    else
      var nameIndex := FindHeaderIndex(t.headers, NameHeaders);
      var deptIndex := FindHeaderIndex(t.headers, DepartmentHeaders);
      if nameIndex == -1 then FileResult([], [NoNameColumnError], [])
      else
        var st := ScanTeachers(t.rows, nameIndex, deptIndex, stamp);
        var warnings := if |st.duplicates| > 0 then st.warnings + [DuplicateNamesPrefix + Join(st.duplicates, ", ")] else st.warnings;
        FileResult(st.teachers, [], warnings)
  }

  /** The `forEach` of `processTeacherFile`. */
  method ScanTeacherRows(rows: seq<Row>, nameIndex: int, deptIndex: int, stamp: string) returns (st: TeacherScan)
    ensures st == ScanTeachers(rows, nameIndex, deptIndex, stamp)
  {
    st := TeacherScan([], [], {}, []);
    for index := 0 to |rows|
      invariant st == ScanTeachers(rows[..index], nameIndex, deptIndex, stamp)
    {
      ghost var prefix := rows[..index + 1];
      assert prefix[..|prefix| - 1] == rows[..index] && prefix[|prefix| - 1] == rows[index];
      assert ScanTeachers(prefix, nameIndex, deptIndex, stamp)
        == TeacherStep(ScanTeachers(rows[..index], nameIndex, deptIndex, stamp), rows[index], index, nameIndex, deptIndex, stamp);
      st := TeacherRow(st, rows[index], index, nameIndex, deptIndex, stamp);
    }
    assert rows[..|rows|] == rows;
  }

  /** The callback of that `forEach` for one row. */
  method TeacherRow(st: TeacherScan, row: Row, index: nat, nameIndex: int, deptIndex: int, stamp: string) returns (next: TeacherScan)
    ensures next == TeacherStep(st, row, index, nameIndex, deptIndex, stamp)
  {
    var teachers, warnings, nameSet, duplicateNames := st.teachers, st.warnings, st.seen, st.duplicates;
    var name := CellAt(row, nameIndex);
    if name == "" {
      warnings := warnings + [EmptyNameWarning(index)];
    } else {
      if name in nameSet {
        if name !in duplicateNames {
          duplicateNames := duplicateNames + [name];
        }
        assert nameSet == st.seen + {name};
      } else {
        nameSet := nameSet + {name};
      }
      var department := if deptIndex != -1 then CellAt(row, deptIndex) else "";
      var teacher := Teacher(TeacherId(stamp, index), name, department);
      teachers := teachers + [teacher];
      assert TeacherScan(teachers, warnings, nameSet, duplicateNames) == AddTeacher(st, teacher);
    }
    next := TeacherScan(teachers, warnings, nameSet, duplicateNames);
  }

  method ProcessTeacherFile(t: Table, stamp: string) returns (r: FileResult<Teacher>)
    ensures r == TeacherFile(t, stamp)
  {
    if t.rows == [] {
      return FileResult([], [NoRowsError], []);
    }
    var nameIndex := FindHeaderIndex(t.headers, NameHeaders);
    var deptIndex := FindHeaderIndex(t.headers, DepartmentHeaders);
    if nameIndex == -1 {
      return FileResult([], [NoNameColumnError], []);
    }
    var st := ScanTeacherRows(t.rows, nameIndex, deptIndex, stamp);
    var warnings := st.warnings;
    if |st.duplicates| > 0 {
      warnings := warnings + [DuplicateNamesPrefix + Join(st.duplicates, ", ")];
    }
    r := FileResult(st.teachers, [], warnings);
  }

  /** The names of the rows with a non-empty name cell, in order. */
  function NamedRows(rows: seq<Row>, nameIndex: int): (r: seq<string>)
  {
    if rows == [] then []
    else
      var name := CellAt(rows[|rows| - 1], nameIndex);
      NamedRows(rows[..|rows| - 1], nameIndex) + (if name == "" then [] else [name])
  }

  /**
   * Every row gives either a teacher or an empty-name warning; the teachers
   * carry the non-empty names in row order, duplicates included; `seen` is
   * the set of those names and `duplicates` lists, once each, exactly the
   * names that occur more than once.
   */
  lemma {:induction false} ScanTeachersShape(rows: seq<Row>, nameIndex: int, deptIndex: int, stamp: string)
    ensures var st := ScanTeachers(rows, nameIndex, deptIndex, stamp);
      |st.teachers| + |st.warnings| == |rows|
      && NamesOf(st.teachers) == NamedRows(rows, nameIndex)
      && (forall n :: n in st.seen <==> n in NamedRows(rows, nameIndex))
      && (forall n :: n in st.duplicates <==> Occurrences(NamedRows(rows, nameIndex), n) > 1)
      && (forall i, j :: 0 <= i < j < |st.duplicates| ==> st.duplicates[i] != st.duplicates[j])
  {
    ScanTeachersKeep(rows, nameIndex, deptIndex, stamp);
  }

  lemma {:induction false} ScanTeachersKeep(rows: seq<Row>, nameIndex: int, deptIndex: int, stamp: string)
    ensures TeacherShape(ScanTeachers(rows, nameIndex, deptIndex, stamp), NamedRows(rows, nameIndex), |rows|)
  {
    if rows != [] {
      var init, last := rows[..|rows| - 1], rows[|rows| - 1];
      ScanTeachersKeep(init, nameIndex, deptIndex, stamp);
      ScanTeachersSnoc(rows, nameIndex, deptIndex, stamp);
      ShapeStep(ScanTeachers(init, nameIndex, deptIndex, stamp), NamedRows(init, nameIndex), |init|, last, nameIndex, deptIndex, stamp);
    }
  }

  /** The scan and the named rows after one more row. */
  lemma ScanTeachersSnoc(rows: seq<Row>, nameIndex: int, deptIndex: int, stamp: string)
    requires rows != []
    ensures var init, last := rows[..|rows| - 1], rows[|rows| - 1];
      var name := CellAt(last, nameIndex);
      ScanTeachers(rows, nameIndex, deptIndex, stamp) == TeacherStep(ScanTeachers(init, nameIndex, deptIndex, stamp), last, |init|, nameIndex, deptIndex, stamp)
      && NamedRows(rows, nameIndex) == NamedRows(init, nameIndex) + (if name == "" then [] else [name])
  {
  }

  /** What the scan keeps about the names read so far. */
  ghost predicate TeacherShape(st: TeacherScan, named: seq<string>, count: nat) {
    |st.teachers| + |st.warnings| == count
    && NamesOf(st.teachers) == named
    && (forall n :: n in st.seen <==> n in named)
    && (forall n :: n in st.duplicates <==> Occurrences(named, n) > 1)
    && (forall i, j :: 0 <= i < j < |st.duplicates| ==> st.duplicates[i] != st.duplicates[j])
  }

  lemma ShapeStep(st: TeacherScan, named: seq<string>, count: nat, row: Row, nameIndex: int, deptIndex: int, stamp: string)
    requires TeacherShape(st, named, count)
    ensures var name := CellAt(row, nameIndex);
      TeacherShape(TeacherStep(st, row, count, nameIndex, deptIndex, stamp), named + (if name == "" then [] else [name]), count + 1)
  {
    var name := CellAt(row, nameIndex);
    if name != "" {
      var department := if deptIndex != -1 then CellAt(row, deptIndex) else "";
      NamedStep(st, named, count, Teacher(TeacherId(stamp, count), name, department));
    } else {
      assert named + [] == named;
    }
  }

  lemma NamedStep(st: TeacherScan, named: seq<string>, count: nat, t: Teacher)
    requires TeacherShape(st, named, count)
    ensures TeacherShape(AddTeacher(st, t), named + [t.name], count + 1)
  {
    var next := AddTeacher(st, t);
    var named' := named + [t.name];
    assert NamesOf(next.teachers) == NamesOf(st.teachers) + [t.name];
    forall n ensures Occurrences(named', n) == Occurrences(named, n) + (if n == t.name then 1 else 0) {
      OccurrencesSnoc(named, t.name);
    }
  }

  /**
   * A table without rows, or without a name column, gives one error and no
   * data; otherwise there is no error, the data are the named rows, and a
   * single warning lists the duplicated names when there are any.
   */
  lemma TeacherFileOutcome(t: Table, stamp: string)
    ensures var r := TeacherFile(t, stamp);
      var nameIndex := FindHeaderIndex(t.headers, NameHeaders);
      (r.errors != [] <==> t.rows == [] || nameIndex == -1)
      && (r.errors != [] ==> r.data == [] && |r.errors| == 1)
      && (r.errors == [] ==> (NamesOf(r.data) == NamedRows(t.rows, nameIndex)
            && |r.data| <= |t.rows| < |r.data| + |r.warnings| + 1))
  {
    if t.rows != [] {
      var nameIndex := FindHeaderIndex(t.headers, NameHeaders);
      if nameIndex != -1 {
        ScanTeachersShape(t.rows, nameIndex, FindHeaderIndex(t.headers, DepartmentHeaders), stamp);
      }
    }
  }

  /** The column of each schedule field, -1 when absent. */
  datatype Columns = Columns(date: int, start: int, end: int, location: int, required: int)

  function ScheduleColumns(headers: Row): Columns {
    Columns(FindHeaderIndex(headers, DateHeaders), FindHeaderIndex(headers, StartHeaders),
            FindHeaderIndex(headers, EndHeaders), FindHeaderIndex(headers, LocationHeaders),
            FindHeaderIndex(headers, RequiredHeaders))
  }

  /** The names of the required columns that are absent, in the source's order. */
  function MissingFields(c: Columns): seq<string> {
    (if c.date == -1 then ["日期"] else []) + (if c.start == -1 then ["开始时间"] else [])
    + (if c.end == -1 then ["结束时间"] else []) + (if c.location == -1 then ["考场"] else [])
  }

  /** `parseInt(cell || '1') || 1`, or 1 without a column. */
  function RequiredCount(row: Row, requiredIndex: int): int {
    if requiredIndex == -1 then 1
    else
      var cell := CellAt(row, requiredIndex);
      match ParseIntAuto(if cell == "" then "1" else cell)
      case None => 1
      case Some(n) => if n == 0 then 1 else n
  }

  /** One schedule row, or `None` when a field is empty. */
  function RowSchedule(row: Row, c: Columns, excelDate: string -> Option<string>, excelTime: string -> Option<string>): Option<Schedule> {
    var date := ParseDate(CellAt(row, c.date), excelDate).GetOr("");
    var startTime := ParseTime(CellAt(row, c.start), excelTime).GetOr("");
    var endTime := ParseTime(CellAt(row, c.end), excelTime).GetOr("");
    var location := CellAt(row, c.location);
    var required := RequiredCount(row, c.required);
    if date == "" || startTime == "" || endTime == "" || location == "" then None
    else Some(Schedule(date + "_" + startTime + "_" + endTime + "_" + location, date, startTime, endTime, location,
                       if required > 1 then required else 1))
  }

  datatype ScheduleScan = ScheduleScan(schedules: seq<Schedule>, warnings: seq<string>)

  /** Row `index` gives schedule `s`, or a warning when there is none. */
  function ScheduleStep(st: ScheduleScan, s: Option<Schedule>, index: nat): ScheduleScan {
    match s
    case None => st.(warnings := st.warnings + [IncompleteRowWarning(index)])
    case Some(s) => st.(schedules := st.schedules + [s])
  }

  /** The row rules with the columns and the spreadsheet branches fixed. */
  function RowParser(c: Columns, excelDate: string -> Option<string>, excelTime: string -> Option<string>): Row -> Option<Schedule> {
    row => RowSchedule(row, c, excelDate, excelTime)
  }

  /** The rows folded through `parse`, in order. */
  function ScanSchedules(rows: seq<Row>, parse: Row -> Option<Schedule>): ScheduleScan {
    if rows == [] then ScheduleScan([], [])
    else ScheduleStep(ScanSchedules(rows[..|rows| - 1], parse), parse(rows[|rows| - 1]), |rows| - 1)
  }

  /** `processScheduleFile` once the file has been read into a table. */
  function ScheduleFile(t: Table, excelDate: string -> Option<string>, excelTime: string -> Option<string>): FileResult<Schedule> {
    if t.rows == [] then FileResult([], [NoRowsError], [])
    else
      var c := ScheduleColumns(t.headers);
      var missing := MissingFields(c);
      if |missing| > 0 then FileResult([], [MissingFieldsPrefix + Join(missing, "、")], [])
      else
        var st := ScanSchedules(t.rows, RowParser(c, excelDate, excelTime));
        FileResult(st.schedules, [], st.warnings)
  }

  /** The `forEach` of `processScheduleFile`. */
  method ScanScheduleRows(rows: seq<Row>, c: Columns, excelDate: string -> Option<string>, excelTime: string -> Option<string>)
    returns (st: ScheduleScan)
    ensures st == ScanSchedules(rows, RowParser(c, excelDate, excelTime))
  {
    var schedules: seq<Schedule> := [];
    var warnings: seq<string> := [];
    for index := 0 to |rows|
      invariant ScheduleScan(schedules, warnings) == ScanSchedules(rows[..index], RowParser(c, excelDate, excelTime))
    {
      assert rows[..index + 1][..index] == rows[..index];
      var s := RowSchedule(rows[index], c, excelDate, excelTime);
      if s.None? {
        warnings := warnings + [IncompleteRowWarning(index)];
      } else {
        schedules := schedules + [s.value];
      }
    }
    assert rows[..|rows|] == rows;
    st := ScheduleScan(schedules, warnings);
  }

  method ProcessScheduleFile(t: Table, excelDate: string -> Option<string>, excelTime: string -> Option<string>)
    returns (r: FileResult<Schedule>)
    ensures r == ScheduleFile(t, excelDate, excelTime)
  {
    if t.rows == [] {
      return FileResult([], [NoRowsError], []);
    }
    var c := ScheduleColumns(t.headers);
    var missing := MissingFields(c);
    if |missing| > 0 {
      return FileResult([], [MissingFieldsPrefix + Join(missing, "、")], []);
    }
    var st := ScanScheduleRows(t.rows, c, excelDate, excelTime);
    r := FileResult(st.schedules, [], st.warnings);
  }

  /** What every accepted schedule satisfies. */
  predicate RowRules(s: Schedule) {
    s.required >= 1
    && s.id == LocationKey(SessionId(s.date, s.startTime, s.endTime), s.location)
    && s.date != "" && s.startTime != "" && s.endTime != "" && s.location != ""
  }

  /**
   * An accepted row has non-empty fields, at least one invigilator (exactly
   * one without a count column), and the room key of its session as id.
   */
  lemma RowScheduleShape(row: Row, c: Columns, excelDate: string -> Option<string>, excelTime: string -> Option<string>)
    ensures var s := RowSchedule(row, c, excelDate, excelTime);
      s.Some? ==> RowRules(s.value) && (c.required == -1 ==> s.value.required == 1)
  {
  }

  /** Every row gives either a schedule or a warning. */
  lemma {:induction false} ScanSchedulesCount(rows: seq<Row>, parse: Row -> Option<Schedule>)
    ensures |ScanSchedules(rows, parse).schedules| + |ScanSchedules(rows, parse).warnings| == |rows|
  {
    if rows != [] {
      ScanSchedulesCount(rows[..|rows| - 1], parse);
    }
  }

  /** Every accepted schedule satisfies the row rules. */
  lemma {:induction false} ScanSchedulesAccepted(rows: seq<Row>, c: Columns, excelDate: string -> Option<string>, excelTime: string -> Option<string>)
    ensures var st := ScanSchedules(rows, RowParser(c, excelDate, excelTime));
      forall k :: 0 <= k < |st.schedules| ==> RowRules(st.schedules[k])
  {
    var parse := RowParser(c, excelDate, excelTime);
    forall row | parse(row).Some?
      ensures RowRules(parse(row).value)
    {
      RowScheduleShape(row, c, excelDate, excelTime);
    }
    ScanAccepted(rows, parse);
  }

  lemma {:induction false} ScanAccepted(rows: seq<Row>, parse: Row -> Option<Schedule>)
    requires forall row :: parse(row).Some? ==> RowRules(parse(row).value)
    ensures forall k :: 0 <= k < |ScanSchedules(rows, parse).schedules| ==> RowRules(ScanSchedules(rows, parse).schedules[k])
  {
    if rows != [] {
      ScanAccepted(rows[..|rows| - 1], parse);
    }
  }

  /** The positions of the rows that `parse` rejects, in increasing order. */
  function Rejected(rows: seq<Row>, parse: Row -> Option<Schedule>): (r: seq<nat>)
    ensures forall k :: 0 <= k < |r| ==> r[k] < |rows| && parse(rows[r[k]]).None?
    ensures forall k, l :: 0 <= k < l < |r| ==> r[k] < r[l]
  {
    if rows == [] then []
    else
      var init := rows[..|rows| - 1];
      var before := Rejected(init, parse);
      assert forall k :: 0 <= k < |before| ==> rows[before[k]] == init[before[k]];
      before + (if parse(rows[|rows| - 1]).None? then [|rows| - 1] else [])
  }

  /** The warnings name, in order, the lines of exactly the rejected rows. */
  lemma {:induction false} ScanSchedulesWarnings(rows: seq<Row>, parse: Row -> Option<Schedule>)
    ensures |ScanSchedules(rows, parse).warnings| == |Rejected(rows, parse)|
    ensures forall k :: 0 <= k < |Rejected(rows, parse)| ==>
      ScanSchedules(rows, parse).warnings[k] == IncompleteRowWarning(Rejected(rows, parse)[k])
  {
    if rows != [] {
      ScanSchedulesWarnings(rows[..|rows| - 1], parse);
    }
  }

  /**
   * A table without rows, or without one of the date, start, end and room
   * columns, gives one error and no data; otherwise there is no error and
   * every row is either accepted or warned about.
   */
  lemma ScheduleFileOutcome(t: Table, excelDate: string -> Option<string>, excelTime: string -> Option<string>)
    ensures var r := ScheduleFile(t, excelDate, excelTime);
      var c := ScheduleColumns(t.headers);
      (r.errors != [] <==> t.rows == [] || c.date == -1 || c.start == -1 || c.end == -1 || c.location == -1)
      && (r.errors != [] ==> r.data == [] && r.warnings == [] && |r.errors| == 1)
      && (r.errors == [] ==> |r.data| + |r.warnings| == |t.rows|)
  {
    if t.rows != [] {
      ScanSchedulesCount(t.rows, RowParser(ScheduleColumns(t.headers), excelDate, excelTime));
    }
  }
}
