/** The two record types the app stores, and the id predicates and lookup the
    components share. */
module Records {

  datatype Option<T> = None | Some(value: T)

  /** A staff member: `{ id, name, role }`. */
  datatype Staff = Staff(id: string, name: string, role: string)

  /** A shift: one staff member on one ISO date, from `startTime` to `endTime` ("HH:MM"). */
  datatype Shift = Shift(id: string, staffId: string, date: string, startTime: string, endTime: string)

  /** `s => s.id === id` and `s => s.id !== id` for both record types, written once so
      that every filter over them uses the same predicate. */
  function StaffHasId(id: string): Staff -> bool { (s: Staff) => s.id == id }
  function StaffLacksId(id: string): Staff -> bool { (s: Staff) => s.id != id }
  function ShiftHasId(id: string): Shift -> bool { (s: Shift) => s.id == id }
  function ShiftLacksId(id: string): Shift -> bool { (s: Shift) => s.id != id }

  /** `list[i]` is the first staff record whose id is `id`. */
  ghost predicate FirstWithId(list: seq<Staff>, id: string, i: int)
  {
    0 <= i < |list| && list[i].id == id && forall j :: 0 <= j < i ==> list[j].id != id
  }

  /** `staffList.find((s) => s.id === id)`: the first record with that id, if any. */
  function FindStaff(list: seq<Staff>, id: string): (r: Option<Staff>)
    ensures r.None? <==> forall i :: 0 <= i < |list| ==> list[i].id != id
    ensures forall i :: FirstWithId(list, id, i) ==> r == Some(list[i])
    ensures r.Some? ==> r.value in list && r.value.id == id
  {
    if list == [] then None
    else if list[0].id == id then Some(list[0])
    else
      var r := FindStaff(list[1..], id);
      assert forall i :: FirstWithId(list, id, i) ==> FirstWithId(list[1..], id, i - 1);
      r
  }
}
