/** components/ShiftFormModal.tsx: the shift dialog's fields, loaded from the shift
    being edited, and the shift its submit hands to `onSave`. */
module ShiftForm {
  import opened Records

  /** The dialog's four fields. */
  datatype Fields = Fields(date: string, staffId: string, startTime: string, endTime: string)

  /** The fields' initial state values. */
  const DefaultFields: Fields := Fields("", "", "09:00", "17:00")

  /** The fields a shift loads into the dialog. */
  function FieldsOf(shift: Shift): Fields
  {
    Fields(shift.date, shift.staffId, shift.startTime, shift.endTime)
  }

  /** `handleSubmit`: nothing unless all four fields are filled in; otherwise a shift with
      the edited shift's id (or the fresh one) and the fields exactly as entered. */
  function SubmittedShift(initialShift: Option<Shift>, freshId: string, f: Fields): (r: Option<Shift>)
    ensures r.Some? <==> f.staffId != "" && f.date != "" && f.startTime != "" && f.endTime != ""
    ensures r.Some? ==> r.value.id == (if initialShift.Some? then initialShift.value.id else freshId)
    ensures r.Some? ==> FieldsOf(r.value) == f
  {
    if f.staffId == "" || f.date == "" || f.startTime == "" || f.endTime == "" then None
    else
      var id := match initialShift case Some(s) => s.id case None => freshId;
      Some(Shift(id, f.staffId, f.date, f.startTime, f.endTime))
  }

  /** Submitting a dialog loaded from a complete shift, without touching it, hands back
      that very shift. */
  lemma SubmitUnchangedEdit(shift: Shift, freshId: string)
    requires shift.staffId != "" && shift.date != "" && shift.startTime != "" && shift.endTime != ""
    ensures SubmittedShift(Some(shift), freshId, FieldsOf(shift)) == Some(shift)
  {
  }

  /** A new shift's dialog has no date and no staff member yet, so submitting it at once
      saves nothing. */
  lemma SubmitDefaultsSavesNothing(freshId: string)
    ensures SubmittedShift(None, freshId, DefaultFields) == None
  {
  }

  /** The state of the dialog component. */
  class ShiftFormModal {
    const initialShift: Option<Shift>
    var open: bool
    var date: string
    var staffId: string
    var startTime: string
    var endTime: string

    function CurrentFields(): Fields
      reads this
    {
      Fields(date, staffId, startTime, endTime)
    }

    /** The first render: closed, with the default field values. */
    constructor (initialShift: Option<Shift>)
      ensures this.initialShift == initialShift
      ensures !open && CurrentFields() == DefaultFields
    {
      this.initialShift := initialShift;
      open := false;
      date := "";
      staffId := "";
      startTime := "09:00";
      endTime := "17:00";
    }

    /** The effect on `initialShift`: when there is one, all four fields are loaded from it. */
    method LoadInitialShift()
      modifies this
      ensures initialShift.Some? ==> CurrentFields() == FieldsOf(initialShift.value)
      ensures initialShift.None? ==> CurrentFields() == old(CurrentFields())
      ensures open == old(open)
    {
      if initialShift.Some? {
        var shift := initialShift.value;
        date := shift.date;
        staffId := shift.staffId;
        startTime := shift.startTime;
        endTime := shift.endTime;
      }
    }

    /** `handleSubmit`: `saved` is what is passed to `onSave`, if anything; the dialog
        closes only when something was saved. */
    method HandleSubmit(freshId: string) returns (saved: Option<Shift>)
      modifies this`open
      ensures saved == SubmittedShift(initialShift, freshId, CurrentFields())
      ensures open == (if saved.Some? then false else old(open))
    {
      saved := SubmittedShift(initialShift, freshId, CurrentFields());
      if saved.Some? {
        open := false;
      }
    }
  }
}
