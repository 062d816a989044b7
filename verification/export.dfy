/** components/ExportButton.tsx: the week's dates, the shifts of that week, the file
    name, the CSV text and the JSON payload handed to the download. */
module Export {
  import opened Lists
  import opened Records
  import opened Text

  datatype Format = JsonFormat | CsvFormat

  function Extension(format: Format): string
  {
    match format
    case JsonFormat => "json"
    case CsvFormat => "csv"
  }

  /** `weekDates`: the date strings of the seven days from `weekStart` on. Days are day
      numbers; `iso` turns a day into its "YYYY-MM-DD" string. */
  function WeekDates(weekStart: int, iso: int -> string): (r: seq<string>)
    ensures |r| == 7 && r[0] == iso(weekStart)
    ensures forall i :: 0 <= i < 7 ==> r[i] == iso(weekStart + i)
  {
    seq(7, i => iso(weekStart + i))
  }

  /** `(s) => weekDates.includes(s.date)` */
  function InDates(dates: seq<string>): Shift -> bool { (s: Shift) => s.date in dates }

  /** `filteredShifts`: exactly the shifts dated on one of `dates`, each as often as
      in `shifts`. */
  function FilteredShifts(shifts: seq<Shift>, dates: seq<string>): (r: seq<Shift>)
    ensures forall i :: 0 <= i < |r| ==> r[i].date in dates
    ensures forall s: Shift :: multiset(r)[s] == if s.date in dates then multiset(shifts)[s] else 0
  {
    FilterMultiplicity(shifts, InDates(dates));
    Filter(shifts, InDates(dates))
  }

  /** Filtering to the week keeps the order of the shifts. */
  lemma FilteredKeepsOrder(a: seq<Shift>, b: seq<Shift>, dates: seq<string>)
    ensures FilteredShifts(a + b, dates) == FilteredShifts(a, dates) + FilteredShifts(b, dates)
  {
    FilterConcat(a, b, InDates(dates));
  }

  /** `shifts-${weekDates[0]}.${format}` */
  function Filename(weekStart: int, iso: int -> string, format: Format): (r: string)
    ensures r == "shifts-" + iso(weekStart) + "." + (if format == CsvFormat then "csv" else "json")
  {
    "shifts-" + WeekDates(weekStart, iso)[0] + "." + Extension(format)
  }

  const HeaderLine: string := "Date,Staff Name,Start Time,End Time"
  const Header: string := HeaderLine + "\n"

  /** `staff?.name ?? "Unknown"`: the name of the first staff record with that id, even
      when that name is empty; "Unknown" only when no record has that id. */
  function StaffName(staffList: seq<Staff>, staffId: string): (r: string)
    ensures (forall i :: 0 <= i < |staffList| ==> staffList[i].id != staffId) ==> r == "Unknown"
    ensures forall i :: FirstWithId(staffList, staffId, i) ==> r == staffList[i].name
    ensures r == "Unknown" || exists s :: s in staffList && s.name == r
  {
    match FindStaff(staffList, staffId)
    case Some(s) => s.name
    case None => "Unknown"
  }

  /** The four cells of a CSV row; the name cell is quoted, with no escaping. */
  function CsvCells(shift: Shift, staffList: seq<Staff>): seq<string>
  {
    [shift.date, "\"" + StaffName(staffList, shift.staffId) + "\"", shift.startTime, shift.endTime]
  }

  /** `${shift.date},"${name}",${shift.startTime},${shift.endTime}` */
  function CsvRow(shift: Shift, staffList: seq<Staff>): string
  {
    Join(CsvCells(shift, staffList), ',')
  }

  /** `filteredShifts.map(...)`: one row per shift, in order. */
  function CsvRows(shifts: seq<Shift>, staffList: seq<Staff>): seq<string>
  {
    seq(|shifts|, i requires 0 <= i < |shifts| => CsvRow(shifts[i], staffList))
  }

  /** `header + csvRows.join("\n")`: the header, then the rows with no trailing newline. */
  function Csv(shifts: seq<Shift>, staffList: seq<Staff>): (r: string)
    ensures |r| >= |Header| && r[..|Header|] == Header
    ensures shifts == [] ==> r == Header
  {
    Header + Join(CsvRows(shifts, staffList), '\n')
  }

  /** Joining four parts puts the separator between each neighbouring pair. */
  lemma Join4(a: string, b: string, c: string, d: string, sep: char)
    ensures Join([a, b, c, d], sep) == a + [sep] + (b + [sep] + (c + [sep] + d))
  {
    assert [a, b, c, d][1..] == [b, c, d];
    assert [b, c, d][1..] == [c, d];
    assert [c, d][1..] == [d];
    assert Join([c, d], sep) == c + [sep] + d;
  }

  /** A row spelled out: date, quoted name, start and end, separated by commas. */
  lemma CsvRowText(shift: Shift, staffList: seq<Staff>)
    ensures CsvRow(shift, staffList)
         == shift.date + [','] + ("\"" + StaffName(staffList, shift.staffId) + "\"") + [','] + shift.startTime + [','] + shift.endTime
  {
    var quoted := "\"" + StaffName(staffList, shift.staffId) + "\"";
    Join4(shift.date, quoted, shift.startTime, shift.endTime, ',');
  }

  /** A character that no part contains and that is not the separator does not occur in
      the joined text. */
  lemma {:induction false} JoinAvoids(parts: seq<string>, sep: char, c: char)
    requires c != sep
    requires forall i :: 0 <= i < |parts| ==> c !in parts[i]
    ensures c !in Join(parts, sep)
  {
    if |parts| > 1 {
      JoinAvoids(parts[1..], sep, c);
    }
  }

  /** No cell text of the shift or of any staff name holds the character `c`. */
  ghost predicate FreeOf(c: char, shifts: seq<Shift>, staffList: seq<Staff>)
  {
    && (forall i :: 0 <= i < |shifts| ==> c !in shifts[i].date && c !in shifts[i].startTime && c !in shifts[i].endTime)
    && (forall j :: 0 <= j < |staffList| ==> c !in staffList[j].name)
  }

  /** A character in no staff name and not in "Unknown" is not in a resolved name either. */
  lemma StaffNameAvoids(staffList: seq<Staff>, staffId: string, c: char)
    requires c !in "Unknown"
    requires forall j :: 0 <= j < |staffList| ==> c !in staffList[j].name
    ensures c !in StaffName(staffList, staffId)
  {
  }

  /** Neither a cell nor a whole row holds `c` when no cell text does. */
  lemma CsvRowAvoids(shift: Shift, staffList: seq<Staff>, c: char)
    requires c != '"' && c !in "Unknown" && FreeOf(c, [shift], staffList)
    ensures forall i :: 0 <= i < 4 ==> c !in CsvCells(shift, staffList)[i]
    ensures c != ',' ==> c !in CsvRow(shift, staffList)
  {
    StaffNameAvoids(staffList, shift.staffId, c);
    var cells := CsvCells(shift, staffList);
    assert [shift][0] == shift;
    assert c !in cells[0] && c !in cells[1] && c !in cells[2] && c !in cells[3];
    if c != ',' {
      JoinAvoids(cells, ',', c);
    }
  }

  /** The cells of a row can be read back by splitting at commas, as long as no cell text
      holds a comma (names are quoted but not escaped, so a comma in a name would split it). */
  lemma CsvRowCells(shift: Shift, staffList: seq<Staff>)
    requires FreeOf(',', [shift], staffList)
    ensures Split(CsvRow(shift, staffList), ',') == CsvCells(shift, staffList)
  {
    CsvRowAvoids(shift, staffList, ',');
    SplitJoin(CsvCells(shift, staffList), ',');
  }

  /** No row holds a newline when no cell text does. */
  lemma CsvRowsAvoidNewline(shifts: seq<Shift>, staffList: seq<Staff>)
    requires FreeOf('\n', shifts, staffList)
    ensures forall i :: 0 <= i < |shifts| ==> '\n' !in CsvRows(shifts, staffList)[i]
  {
    forall i | 0 <= i < |shifts| ensures '\n' !in CsvRows(shifts, staffList)[i] {
      assert FreeOf('\n', [shifts[i]], staffList);
      CsvRowAvoids(shifts[i], staffList, '\n');
    }
  }

  /** The lines of the CSV text are the header line and then one line per shift, in
      order; with no shifts the text ends right after the header's newline. */
  lemma CsvLines(shifts: seq<Shift>, staffList: seq<Staff>)
    requires FreeOf('\n', shifts, staffList)
    ensures Split(Csv(shifts, staffList), '\n')
         == [HeaderLine] + (if shifts == [] then [""] else CsvRows(shifts, staffList))
  {
    var rows := CsvRows(shifts, staffList);
    CsvRowsAvoidNewline(shifts, staffList);
    assert Csv(shifts, staffList) == HeaderLine + ['\n'] + Join(rows, '\n');
    SplitFirst(HeaderLine, Join(rows, '\n'), '\n');
    if shifts != [] {
      SplitJoin(rows, '\n');
    }
  }

  /** What the JSON export serialises: every staff record, but only the week's shifts. */
  datatype Payload = Payload(exportedAt: string, weekStart: string, staff: seq<Staff>, shifts: seq<Shift>)

  datatype Content = JsonContent(payload: Payload) | CsvContent(text: string)

  /** The file handed to the download: its name and its content. */
  datatype ExportFile = ExportFile(filename: string, content: Content)

  /** `handleExport` up to the download. The clock reading and `weekStart.toISOString()`
      are the parameters `exportedAt` and `weekStartStamp`. */
  function HandleExport(format: Format, weekStart: int, iso: int -> string, weekStartStamp: string,
                        exportedAt: string, staffList: seq<Staff>, shifts: seq<Shift>): (r: ExportFile)
    ensures r.filename == Filename(weekStart, iso, format)
    ensures r.content.JsonContent? <==> format == JsonFormat
    ensures r.content.JsonContent? ==>
      && r.content.payload.staff == staffList
      && r.content.payload.exportedAt == exportedAt
      && r.content.payload.weekStart == weekStartStamp
      && r.content.payload.shifts == FilteredShifts(shifts, WeekDates(weekStart, iso))
      && forall i :: 0 <= i < |r.content.payload.shifts| ==> r.content.payload.shifts[i].date in WeekDates(weekStart, iso)
    ensures r.content.CsvContent? ==> r.content.text == Csv(FilteredShifts(shifts, WeekDates(weekStart, iso)), staffList)
  {
    var weekDates := WeekDates(weekStart, iso);
    var filtered := FilteredShifts(shifts, weekDates);
    var filename := Filename(weekStart, iso, format);
    match format
    case JsonFormat => ExportFile(filename, JsonContent(Payload(exportedAt, weekStartStamp, staffList, filtered)))
    case CsvFormat => ExportFile(filename, CsvContent(Csv(filtered, staffList)))
  }

  /** The row for a shift of Ann on 3 June 2024 from nine to five. */
  lemma CsvRowExample(shift: Shift, staffList: seq<Staff>)
    requires shift == Shift("s1", "a1", "2024-06-03", "09:00", "17:00")
    requires staffList == [Staff("a1", "Ann", "Cashier")]
    ensures CsvRow(shift, staffList) == "2024-06-03,\"Ann\",09:00,17:00"
  {
    assert FindStaff(staffList, shift.staffId) == Some(staffList[0]);
    assert CsvCells(shift, staffList)[1] == "\"" + "Ann" + "\"" == "\"Ann\"";
    assert CsvCells(shift, staffList) == [shift.date, "\"Ann\"", shift.startTime, shift.endTime];
    Join4(shift.date, "\"Ann\"", shift.startTime, shift.endTime, ',');
  }

  /** A shift whose staff record is gone is exported under the name "Unknown". */
  lemma CsvRowUnknownExample(shift: Shift, staffList: seq<Staff>)
    requires shift == Shift("s1", "gone", "2024-06-03", "09:00", "17:00")
    requires staffList == [Staff("a1", "Ann", "Cashier")]
    ensures CsvRow(shift, staffList) == "2024-06-03,\"Unknown\",09:00,17:00"
  {
    CsvRowText(shift, staffList);
  }
}
