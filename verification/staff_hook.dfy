/** hooks/useStaff.ts: the staff list, kept in memory and written through to the
    store under the key "staff" after every change. */
module StaffHook {
  import opened Lists
  import opened Records
  import opened Storage

  const StaffKey: string := "staff"

  /** `staffList.filter((s) => s.id !== id)`: every record with that id is gone, and
      every other record occurs exactly as often as before. */
  function WithoutStaff(list: seq<Staff>, id: string): (r: seq<Staff>)
    ensures forall i :: 0 <= i < |r| ==> r[i].id != id
    ensures forall s: Staff :: s.id != id ==> multiset(r)[s] == multiset(list)[s]
  {
    FilterMultiplicity(list, StaffLacksId(id));
    Filter(list, StaffLacksId(id))
  }

  /** The number of records in `list` with the given id. */
  function StaffIdCount(list: seq<Staff>, id: string): nat
  {
    |Filter(list, StaffHasId(id))|
  }

  /** Removal keeps the order of the surviving records: it works piecewise over any
      split of the list. */
  lemma RemoveKeepsOrder(a: seq<Staff>, b: seq<Staff>, id: string)
    ensures WithoutStaff(a + b, id) == WithoutStaff(a, id) + WithoutStaff(b, id)
  {
    FilterConcat(a, b, StaffLacksId(id));
  }

  /** Removing an id that no record carries leaves the list as it was. */
  lemma RemoveAbsent(list: seq<Staff>, id: string)
    requires forall i :: 0 <= i < |list| ==> list[i].id != id
    ensures WithoutStaff(list, id) == list
  {
    FilterKeepsAll(list, StaffLacksId(id));
  }

  /** Removing the id of a record just appended, when no earlier record had that id,
      restores the list from before the append. */
  lemma RemoveUndoesAdd(list: seq<Staff>, s: Staff)
    requires forall i :: 0 <= i < |list| ==> list[i].id != s.id
    ensures WithoutStaff(list + [s], s.id) == list
  {
    RemoveKeepsOrder(list, [s], s.id);
    RemoveAbsent(list, s.id);
  }

  /** Appending does not look at ids: the appended record adds one to the count of its id,
      so appending a record whose id is already present leaves two records with that id. */
  lemma AddDuplicatesId(list: seq<Staff>, s: Staff)
    ensures StaffIdCount(list + [s], s.id) == StaffIdCount(list, s.id) + 1
    ensures (exists i :: 0 <= i < |list| && list[i].id == s.id) ==> StaffIdCount(list + [s], s.id) >= 2
  {
    FilterConcat(list, [s], StaffHasId(s.id));
    if exists i :: 0 <= i < |list| && list[i].id == s.id {
      var i :| 0 <= i < |list| && list[i].id == s.id;
      FilterMultiplicity(list, StaffHasId(s.id));
      assert list[i] in multiset(list);
      assert list[i] in multiset(Filter(list, StaffHasId(s.id)));
    }
  }

  /** After removing an id no record carries it, however many records had it. */
  lemma RemoveStaffClearsId(list: seq<Staff>, id: string)
    ensures StaffIdCount(WithoutStaff(list, id), id) == 0
  {
    FilterKeepsNone(WithoutStaff(list, id), StaffHasId(id));
  }

  /** Once some record has the id, appending another record with that id changes no
      lookup: the earlier record is still the one found. */
  lemma {:induction false} FindIgnoresAppended(list: seq<Staff>, s: Staff, id: string)
    requires exists i :: 0 <= i < |list| && list[i].id == id
    ensures FindStaff(list + [s], id) == FindStaff(list, id)
  {
    assert (list + [s])[0] == list[0];
    if list[0].id != id {
      assert (list + [s])[1..] == list[1..] + [s];
      var i :| 0 <= i < |list| && list[i].id == id;
      assert list[1..][i - 1].id == id;
      FindIgnoresAppended(list[1..], s, id);
    }
  }

  /** The state of `useStaff`: the `staffList` state and the store it writes to. */
  class StaffRepository {
    const store: Store<Staff>
    var staffList: seq<Staff>

    /** `useState<Staff[]>([])`: the list starts empty. */
    constructor (store: Store<Staff>)
      ensures this.store == store && staffList == []
    {
      this.store := store;
      staffList := [];
    }

    /** The mount effect: `setStaffList(getData("staff"))`. */
    method Load()
      modifies this
      ensures staffList == store.GetData(StaffKey)
    {
      staffList := store.GetData(StaffKey);
    }

    /** The value stored under "staff" is the in-memory list. */
    ghost predicate Persisted()
      reads this, store
    {
      store.GetData(StaffKey) == staffList
    }

    /** `addStaff(staff)`: appends without checking ids and writes the new list. */
    method AddStaff(staff: Staff)
      requires store.inBrowser
      modifies this, store
      ensures staffList == old(staffList) + [staff]
      ensures store.entries == Put(old(store.entries), StaffKey, staffList)
      ensures Persisted()
    {
      staffList := staffList + [staff];
      store.SetData(StaffKey, staffList);
    }

    /** `removeStaff(id)`: drops every record with that id and writes the new list. */
    method RemoveStaff(id: string)
      requires store.inBrowser
      modifies this, store
      ensures staffList == WithoutStaff(old(staffList), id)
      ensures store.entries == Put(old(store.entries), StaffKey, staffList)
      ensures Persisted()
    {
      staffList := WithoutStaff(staffList, id);
      store.SetData(StaffKey, staffList);
    }
  }
}
