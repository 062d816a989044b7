/** hooks/useShifts.ts: the shift list, kept in memory and written through to the
    store under the key "shifts" after every change. */
module ShiftHook {
  import opened Lists
  import opened Records
  import opened Storage

  const ShiftKey: string := "shifts"

  /** `shifts.filter((s) => s.id !== id)`: every shift with that id is gone, and every
      other shift occurs exactly as often as before. */
  function WithoutShift(shifts: seq<Shift>, id: string): (r: seq<Shift>)
    ensures forall i :: 0 <= i < |r| ==> r[i].id != id
    ensures forall s: Shift :: s.id != id ==> multiset(r)[s] == multiset(shifts)[s]
  {
    FilterMultiplicity(shifts, ShiftLacksId(id));
    Filter(shifts, ShiftLacksId(id))
  }

  /** The number of shifts in `shifts` with the given id. */
  function ShiftIdCount(shifts: seq<Shift>, id: string): nat
  {
    |Filter(shifts, ShiftHasId(id))|
  }

  /** Removal keeps the order of the surviving shifts. */
  lemma RemoveShiftKeepsOrder(a: seq<Shift>, b: seq<Shift>, id: string)
    ensures WithoutShift(a + b, id) == WithoutShift(a, id) + WithoutShift(b, id)
  {
    FilterConcat(a, b, ShiftLacksId(id));
  }

  /** Removing an id that no shift carries leaves the list as it was. */
  lemma RemoveShiftAbsent(shifts: seq<Shift>, id: string)
    requires forall i :: 0 <= i < |shifts| ==> shifts[i].id != id
    ensures WithoutShift(shifts, id) == shifts
  {
    FilterKeepsAll(shifts, ShiftLacksId(id));
  }

  /** Removing the id of a shift just appended, when no earlier shift had that id,
      restores the list from before the append. */
  lemma RemoveShiftUndoesAdd(shifts: seq<Shift>, s: Shift)
    requires forall i :: 0 <= i < |shifts| ==> shifts[i].id != s.id
    ensures WithoutShift(shifts + [s], s.id) == shifts
  {
    RemoveShiftKeepsOrder(shifts, [s], s.id);
    RemoveShiftAbsent(shifts, s.id);
  }

  /** Appending does not look at ids: the appended shift adds one to the count of its id. */
  lemma AddShiftCountsId(shifts: seq<Shift>, s: Shift)
    ensures ShiftIdCount(shifts + [s], s.id) == ShiftIdCount(shifts, s.id) + 1
  {
    FilterConcat(shifts, [s], ShiftHasId(s.id));
  }

  /** After removing an id no shift carries it. */
  lemma RemoveShiftClearsId(shifts: seq<Shift>, id: string)
    ensures ShiftIdCount(WithoutShift(shifts, id), id) == 0
  {
    FilterKeepsNone(WithoutShift(shifts, id), ShiftHasId(id));
  }

  /** The state of `useShifts`: the `shifts` state and the store it writes to. */
  class ShiftRepository {
    const store: Store<Shift>
    var shifts: seq<Shift>

    /** `useState<Shift[]>([])`: the list starts empty. */
    constructor (store: Store<Shift>)
      ensures this.store == store && shifts == []
    {
      this.store := store;
      shifts := [];
    }

    /** The mount effect: `setShifts(getData("shifts"))`. */
    method Load()
      modifies this
      ensures shifts == store.GetData(ShiftKey)
    {
      shifts := store.GetData(ShiftKey);
    }

    /** The value stored under "shifts" is the in-memory list. */
    ghost predicate Persisted()
      reads this, store
    {
      store.GetData(ShiftKey) == shifts
    }

    /** `addShift(shift)`: appends without checking ids and writes the new list. */
    method AddShift(shift: Shift)
      requires store.inBrowser
      modifies this, store
      ensures shifts == old(shifts) + [shift]
      ensures store.entries == Put(old(store.entries), ShiftKey, shifts)
      ensures Persisted()
    {
      shifts := shifts + [shift];
      store.SetData(ShiftKey, shifts);
    }

    /** `removeShift(id)`: drops every shift with that id and writes the new list. */
    method RemoveShift(id: string)
      requires store.inBrowser
      modifies this, store
      ensures shifts == WithoutShift(old(shifts), id)
      ensures store.entries == Put(old(store.entries), ShiftKey, shifts)
      ensures Persisted()
    {
      shifts := WithoutShift(shifts, id);
      store.SetData(ShiftKey, shifts);
    }
  }
}
