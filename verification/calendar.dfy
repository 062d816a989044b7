/** components/ShiftCalendar.tsx: the week grid, the names shown on it, the shift
    dialog's save and delete, and week navigation.

    Dates are day numbers counted from Thursday 1 January 1970, so day 4 is a Monday.
    The conversion of a day to its "YYYY-MM-DD" string is the parameter `iso`. */
module Calendar {
  import opened Lists
  import opened Records
  import opened Storage
  import opened ShiftHook
  import opened Export
  import StaffHook

  const DefaultStartTime: string := "09:00"
  const DefaultEndTime: string := "17:00"

  /** The day of the week, 0 for Monday through 6 for Sunday. */
  function Weekday(day: int): (r: int)
    ensures 0 <= r < 7
  {
    (day + 3) % 7
  }

  /** `startOfWeek(day, { weekStartsOn: 1 })`: the Monday on or before `day`. */
  function StartOfWeek(day: int): (r: int)
    ensures Weekday(r) == 0
    ensures r <= day < r + 7
  {
    day - Weekday(day)
  }

  /** `addWeeks(weekStart, 1)` */
  function NextWeek(weekStart: int): (r: int)
    ensures Weekday(r) == Weekday(weekStart) && r > weekStart
    ensures r == WeekDays(weekStart)[6] + 1
  {
    weekStart + 7
  }

  /** `subWeeks(weekStart, 1)` */
  function PrevWeek(weekStart: int): (r: int)
    ensures Weekday(r) == Weekday(weekStart) && r < weekStart
    ensures WeekDays(r)[6] + 1 == weekStart
  {
    weekStart - 7
  }

  /** Previous and next week undo each other, and the next week's first day follows
      this week's last day. */
  lemma WeekNavigation(weekStart: int)
    ensures PrevWeek(NextWeek(weekStart)) == weekStart && NextWeek(PrevWeek(weekStart)) == weekStart
    ensures WeekDays(NextWeek(weekStart))[0] == WeekDays(weekStart)[6] + 1
  {
  }

  /** `weekDays`: the seven consecutive days from the week start. */
  function WeekDays(weekStart: int): (r: seq<int>)
    ensures |r| == 7 && r[0] == weekStart
    ensures forall i :: 0 < i < 7 ==> r[i] == r[i - 1] + 1
  {
    seq(7, i => weekStart + i)
  }

  /** `(s) => s.date === dateStr` */
  function OnDate(date: string): Shift -> bool { (s: Shift) => s.date == date }

  /** `dayShifts`: exactly the shifts dated `date`, each as often as in `shifts`. */
  function DayShifts(shifts: seq<Shift>, date: string): (r: seq<Shift>)
    ensures forall i :: 0 <= i < |r| ==> r[i].date == date
    ensures forall s: Shift :: multiset(r)[s] == if s.date == date then multiset(shifts)[s] else 0
  {
    FilterMultiplicity(shifts, OnDate(date));
    Filter(shifts, OnDate(date))
  }

  /** A day's column keeps the order the shifts have in the list. */
  lemma DayShiftsKeepOrder(a: seq<Shift>, b: seq<Shift>, date: string)
    ensures DayShifts(a + b, date) == DayShifts(a, date) + DayShifts(b, date)
  {
    FilterConcat(a, b, OnDate(date));
  }

  /** One column per date. */
  function Columns(shifts: seq<Shift>, dates: seq<string>): seq<seq<Shift>>
  {
    seq(|dates|, i requires 0 <= i < |dates| => DayShifts(shifts, dates[i]))
  }

  /** The weekly grid: the columns of the seven days from `weekStart`. */
  function Grid(shifts: seq<Shift>, weekStart: int, iso: int -> string): (r: seq<seq<Shift>>)
    ensures |r| == 7
    ensures forall i :: 0 <= i < 7 ==> r[i] == DayShifts(shifts, iso(weekStart + i))
  {
    var days := WeekDays(weekStart);
    Columns(shifts, seq(7, i requires 0 <= i < 7 => iso(days[i])))
  }

  /** Distinct days have distinct date strings. */
  ghost predicate Injective(iso: int -> string)
  {
    forall a: int, b: int :: iso(a) == iso(b) ==> a == b
  }

  /** Over distinct dates, the columns together hold exactly the shifts on those dates,
      each shift in one column only. */
  lemma {:induction false} ColumnsCoverDates(shifts: seq<Shift>, dates: seq<string>)
    requires forall i, j :: 0 <= i < j < |dates| ==> dates[i] != dates[j]
    ensures multiset(Flatten(Columns(shifts, dates))) == multiset(FilteredShifts(shifts, dates))
  {
    if dates == [] {
      assert multiset(FilteredShifts(shifts, dates)) == multiset{};
    } else {
      var d, rest := dates[0], dates[1..];
      assert dates == [d] + rest;
      forall k | 0 <= k < |rest| ensures rest[k] != d {
        assert rest[k] == dates[k + 1];
      }
      ColumnsCoverDates(shifts, rest);
      var cols := Columns(shifts, dates);
      assert cols[0] == DayShifts(shifts, d) && cols[1..] == Columns(shifts, rest);
      assert Flatten(cols) == DayShifts(shifts, d) + Flatten(Columns(shifts, rest));
      ColumnsSplit(shifts, d, rest);
    }
  }

  /** The shifts on `d` or on one of `rest`, when `d` is not among `rest`, are those on `d`
      together with those on `rest`. */
  lemma ColumnsSplit(shifts: seq<Shift>, d: string, rest: seq<string>)
    requires d !in rest
    ensures multiset(FilteredShifts(shifts, [d] + rest))
         == multiset(DayShifts(shifts, d)) + multiset(FilteredShifts(shifts, rest))
  {
    var whole := multiset(FilteredShifts(shifts, [d] + rest));
    var parts := multiset(DayShifts(shifts, d)) + multiset(FilteredShifts(shifts, rest));
    forall s: Shift ensures whole[s] == parts[s] {
      assert s.date in [d] + rest <==> s.date == d || s.date in rest;
    }
    assert whole == parts;
  }

  /** The grid shows, over the seven days, exactly the shifts the export of the same
      week contains, each in one day's column. */
  lemma GridMatchesExport(shifts: seq<Shift>, weekStart: int, iso: int -> string)
    requires Injective(iso)
    ensures multiset(Flatten(Grid(shifts, weekStart, iso))) == multiset(FilteredShifts(shifts, WeekDates(weekStart, iso)))
  {
    var dates := WeekDates(weekStart, iso);
    assert Grid(shifts, weekStart, iso) == Columns(shifts, dates);
    ColumnsCoverDates(shifts, dates);
  }

  /** `staff?.name || "Unknown"`: the name of the first staff record with that id, with
      "Unknown" both when there is none and when that name is empty. */
  function DisplayName(staffList: seq<Staff>, staffId: string): (r: string)
    ensures r != ""
    ensures (forall i :: 0 <= i < |staffList| ==> staffList[i].id != staffId) ==> r == "Unknown"
    ensures forall i :: FirstWithId(staffList, staffId, i) ==>
              r == if staffList[i].name == "" then "Unknown" else staffList[i].name
  {
    match FindStaff(staffList, staffId)
    case Some(s) => if s.name == "" then "Unknown" else s.name
    case None => "Unknown"
  }

  /** The grid and the CSV export name a shift's staff alike, except for a matched
      record with an empty name: the grid shows "Unknown" and the export an empty name. */
  lemma DisplayNameVersusExport(staffList: seq<Staff>, staffId: string)
    ensures DisplayName(staffList, staffId)
         == if StaffName(staffList, staffId) == "" then "Unknown" else StaffName(staffList, staffId)
  {
  }

  /** The shift `handleSave` builds: the edited shift's id or a fresh one, and the
      dialog's fields as they are. */
  function DialogShift(editing: Option<Shift>, freshId: string, staffId: string, date: string,
                       startTime: string, endTime: string): (r: Shift)
    ensures r.id == (if editing.Some? then editing.value.id else freshId)
    ensures r.staffId == staffId && r.date == date && r.startTime == startTime && r.endTime == endTime
  {
    var id := match editing case Some(e) => e.id case None => freshId;
    Shift(id, staffId, date, startTime, endTime)
  }

  /** The list an edit writes: the other shifts, then the new version. */
  function EditedShifts(shifts: seq<Shift>, edited: Shift, updated: Shift): seq<Shift>
  {
    WithoutShift(shifts, edited.id) + [updated]
  }

  /** An edit that keeps the id leaves exactly one shift with it, the new version, last,
      after the other shifts in their order. */
  lemma EditLeavesOneVersion(shifts: seq<Shift>, edited: Shift, updated: Shift)
    requires updated.id == edited.id
    ensures ShiftIdCount(EditedShifts(shifts, edited, updated), edited.id) == 1
    ensures EditedShifts(shifts, edited, updated)[|EditedShifts(shifts, edited, updated)| - 1] == updated
    ensures forall s: Shift :: s.id != edited.id ==>
              multiset(EditedShifts(shifts, edited, updated))[s] == multiset(shifts)[s]
  {
    AddShiftCountsId(WithoutShift(shifts, edited.id), updated);
    RemoveShiftClearsId(shifts, edited.id);
  }

  /** The state of the calendar component. */
  class ShiftCalendar {
    const shiftRepo: ShiftRepository
    const staffRepo: StaffHook.StaffRepository
    const iso: int -> string
    var modalOpen: bool
    var editingShift: Option<Shift>
    var selectedDate: string
    var staffId: string
    var startTime: string
    var endTime: string
    var currentWeekStart: int

    /** The displayed week starts on a Monday. */
    ghost predicate Valid()
      reads this
    {
      Weekday(currentWeekStart) == 0
    }

    /** The dialog is closed and its fields are back at their defaults. */
    ghost predicate DialogReset()
      reads this
    {
      !modalOpen && editingShift.None? && staffId == ""
      && startTime == DefaultStartTime && endTime == DefaultEndTime
    }

    /** The shift the dialog would save now. */
    ghost function PendingShift(freshId: string): Shift
      reads this
    {
      DialogShift(editingShift, freshId, staffId, selectedDate, startTime, endTime)
    }

    /** The first render, on day `today`: the current week and today's date. */
    constructor (shiftRepo: ShiftRepository, staffRepo: StaffHook.StaffRepository, iso: int -> string, today: int)
      ensures this.shiftRepo == shiftRepo && this.staffRepo == staffRepo && this.iso == iso
      ensures Valid() && DialogReset()
      ensures selectedDate == iso(today) && currentWeekStart == StartOfWeek(today)
    {
      this.shiftRepo := shiftRepo;
      this.staffRepo := staffRepo;
      this.iso := iso;
      modalOpen := false;
      editingShift := None;
      selectedDate := iso(today);
      staffId := "";
      startTime := DefaultStartTime;
      endTime := DefaultEndTime;
      currentWeekStart := StartOfWeek(today);
    }

    /** The grid the calendar renders. */
    function WeekGrid(): seq<seq<Shift>>
      reads this, shiftRepo
    {
      Grid(shiftRepo.shifts, currentWeekStart, iso)
    }

    /** The name shown on a shift's card in the grid. */
    function CardName(shift: Shift): string
      reads staffRepo
    {
      DisplayName(staffRepo.staffList, shift.staffId)
    }

    /** `closeModal` */
    method CloseModal()
      modifies this
      ensures DialogReset()
      ensures selectedDate == old(selectedDate) && currentWeekStart == old(currentWeekStart)
    {
      modalOpen := false;
      editingShift := None;
      staffId := "";
      startTime := DefaultStartTime;
      endTime := DefaultEndTime;
    }

    /** `handleOpenAdd(date)`: an empty dialog for a new shift on `date`. */
    method HandleOpenAdd(date: string)
      modifies this
      ensures modalOpen && editingShift.None? && selectedDate == date && staffId == ""
      ensures startTime == DefaultStartTime && endTime == DefaultEndTime
      ensures currentWeekStart == old(currentWeekStart)
    {
      selectedDate := date;
      editingShift := None;
      staffId := "";
      startTime := DefaultStartTime;
      endTime := DefaultEndTime;
      modalOpen := true;
    }

    /** `handleOpenEdit(shift)`: the dialog filled from `shift`. */
    method HandleOpenEdit(shift: Shift)
      modifies this
      ensures modalOpen && editingShift == Some(shift) && selectedDate == shift.date
      ensures staffId == shift.staffId && startTime == shift.startTime && endTime == shift.endTime
      ensures currentWeekStart == old(currentWeekStart)
    {
      editingShift := Some(shift);
      selectedDate := shift.date;
      startTime := shift.startTime;
      endTime := shift.endTime;
      staffId := shift.staffId;
      modalOpen := true;
    }

    /** `handleSave`: nothing without a staff member. An edit writes the other shifts and
        the new version straight to the store, leaving the in-memory list as it was; an add
        goes through `addShift`. Either way the dialog is then reset. */
    method HandleSave(freshId: string)
      requires staffId != "" && editingShift.None? ==> shiftRepo.store.inBrowser
      modifies this, shiftRepo, shiftRepo.store
      ensures old(staffId) == "" ==> unchanged(this) && unchanged(shiftRepo) && unchanged(shiftRepo.store)
      ensures old(staffId) != "" ==> DialogReset()
      ensures selectedDate == old(selectedDate) && currentWeekStart == old(currentWeekStart)
      ensures old(staffId) != "" && old(editingShift).Some? ==>
        && shiftRepo.shifts == old(shiftRepo.shifts)
        && shiftRepo.store.entries
           == if shiftRepo.store.inBrowser
              then Put(old(shiftRepo.store.entries), ShiftKey,
                       EditedShifts(old(shiftRepo.shifts), old(editingShift).value, old(PendingShift(freshId))))
              else old(shiftRepo.store.entries)
      ensures old(staffId) != "" && old(editingShift).None? ==>
        && shiftRepo.shifts == old(shiftRepo.shifts) + [old(PendingShift(freshId))]
        && shiftRepo.store.entries == Put(old(shiftRepo.store.entries), ShiftKey, shiftRepo.shifts)
    {
      if staffId == "" {
        return;
      }
      var newShift := DialogShift(editingShift, freshId, staffId, selectedDate, startTime, endTime);
      match editingShift {
        case Some(editing) =>
          var written := EditedShifts(shiftRepo.shifts, editing, newShift);
          if shiftRepo.store.inBrowser {
            shiftRepo.store.SetData(ShiftKey, written);
          }
        case None =>
          shiftRepo.AddShift(newShift);
      }
      CloseModal();
    }

    /** `handleDelete`: nothing when no shift is being edited; otherwise the list without
        that shift's id goes straight to the store and the dialog is reset. The in-memory
        list is not touched. */
    method HandleDelete()
      modifies this, shiftRepo.store
      ensures old(editingShift).None? ==> unchanged(this) && unchanged(shiftRepo.store)
      ensures old(editingShift).Some? ==>
        && DialogReset()
        && shiftRepo.store.entries
           == if shiftRepo.store.inBrowser
              then Put(old(shiftRepo.store.entries), ShiftKey, WithoutShift(shiftRepo.shifts, old(editingShift).value.id))
              else old(shiftRepo.store.entries)
      ensures selectedDate == old(selectedDate) && currentWeekStart == old(currentWeekStart)
    {
      if editingShift.None? {
        return;
      }
      var updated := WithoutShift(shiftRepo.shifts, editingShift.value.id);
      if shiftRepo.store.inBrowser {
        shiftRepo.store.SetData(ShiftKey, updated);
      }
      CloseModal();
    }

    /** Saving an edit, then opening the dialog on `date`, choosing `addStaffId` and saving
        again. The edit reached only the store, so the add writes the in-memory list plus
        the new shift, and the edited version is gone from the store unless it was already
        in the list. With no staff member chosen the second save does nothing and the
        store keeps the edit. */
    method LaterAddRevertsEdit(freshId: string, date: string, addStaffId: string)
      requires editingShift.Some? && staffId != "" && shiftRepo.store.inBrowser
      modifies this, shiftRepo, shiftRepo.store
      ensures addStaffId != "" ==>
        shiftRepo.store.GetData(ShiftKey)
        == old(shiftRepo.shifts) + [Shift(freshId, addStaffId, date, DefaultStartTime, DefaultEndTime)]
      ensures addStaffId != "" && old(PendingShift(freshId)) !in old(shiftRepo.shifts)
              && old(editingShift).value.id != freshId ==>
        old(PendingShift(freshId)) !in shiftRepo.store.GetData(ShiftKey)
      ensures addStaffId == "" ==>
        shiftRepo.store.GetData(ShiftKey)
        == EditedShifts(old(shiftRepo.shifts), old(editingShift).value, old(PendingShift(freshId)))
      ensures shiftRepo.shifts == old(shiftRepo.shifts) + (if addStaffId != "" then [Shift(freshId, addStaffId, date, DefaultStartTime, DefaultEndTime)] else [])
    {
      HandleSave(freshId);
      HandleOpenAdd(date);
      staffId := addStaffId;
      HandleSave(freshId);
    }

    /** "Prev Week" */
    method GoToPrevWeek()
      requires Valid()
      modifies this`currentWeekStart
      ensures Valid() && currentWeekStart == old(currentWeekStart) - 7
    {
      currentWeekStart := PrevWeek(currentWeekStart);
    }

    /** "Next Week" */
    method GoToNextWeek()
      requires Valid()
      modifies this`currentWeekStart
      ensures Valid() && currentWeekStart == old(currentWeekStart) + 7
    {
      currentWeekStart := NextWeek(currentWeekStart);
    }

    /** "Today", with the clock's reading as the day `today`. */
    method GoToToday(today: int)
      modifies this`currentWeekStart
      ensures Valid() && currentWeekStart <= today < currentWeekStart + 7
    {
      currentWeekStart := StartOfWeek(today);
    }

    /** The date picker: the week containing the picked day. */
    method PickWeek(day: int)
      modifies this`currentWeekStart
      ensures Valid() && currentWeekStart <= day < currentWeekStart + 7
    {
      currentWeekStart := StartOfWeek(day);
    }
  }
}
