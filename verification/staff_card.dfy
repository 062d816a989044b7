/** components/StaffCard.tsx: one staff member's card, with its edit dialog and its
    delete button, both acting through the staff repository. */
module Cards {
  import opened Records
  import opened Storage
  import opened StaffHook

  /** `{ ...staff, name, role }`: the same record with only the name and role replaced. */
  function UpdatedStaff(staff: Staff, name: string, role: string): (r: Staff)
    ensures r.id == staff.id && r.name == name && r.role == role
  {
    staff.(name := name, role := role)
  }

  /** An update goes through the appending `addStaff`: the list then holds the old record
      and a second one with the same id, and every lookup by that id still finds the
      older record, so the new name is not what the calendar or the export shows. */
  lemma UpdateAppendsSecondRecord(list: seq<Staff>, i: int, name: string, role: string)
    requires 0 <= i < |list|
    ensures StaffIdCount(list + [UpdatedStaff(list[i], name, role)], list[i].id) >= 2
    ensures FindStaff(list + [UpdatedStaff(list[i], name, role)], list[i].id) == FindStaff(list, list[i].id)
  {
    AddDuplicatesId(list, UpdatedStaff(list[i], name, role));
    FindIgnoresAppended(list, UpdatedStaff(list[i], name, role), list[i].id);
  }

  /** The state of one card. */
  class StaffCard {
    const staff: Staff
    const repo: StaffRepository
    var editOpen: bool
    var name: string
    var role: string

    /** The first render: the dialog closed, its fields holding the card's name and role. */
    constructor (staff: Staff, repo: StaffRepository)
      ensures this.staff == staff && this.repo == repo
      ensures !editOpen && name == staff.name && role == staff.role
    {
      this.staff := staff;
      this.repo := repo;
      editOpen := false;
      name := staff.name;
      role := staff.role;
    }

    /** `handleUpdate`: no check on the fields; the updated record is appended and the
        dialog closes. */
    method HandleUpdate()
      requires repo.store.inBrowser
      modifies this`editOpen, repo, repo.store
      ensures repo.staffList == old(repo.staffList) + [UpdatedStaff(staff, name, role)]
      ensures repo.store.entries == Put(old(repo.store.entries), StaffKey, repo.staffList)
      ensures !editOpen
    {
      repo.AddStaff(UpdatedStaff(staff, name, role));
      editOpen := false;
    }

    /** The delete button: `removeStaff(staff.id)`, which drops every record with that id. */
    method HandleDelete()
      requires repo.store.inBrowser
      modifies repo, repo.store
      ensures repo.staffList == WithoutStaff(old(repo.staffList), staff.id)
      ensures StaffIdCount(repo.staffList, staff.id) == 0
      ensures repo.store.entries == Put(old(repo.store.entries), StaffKey, repo.staffList)
    {
      repo.RemoveStaff(staff.id);
      RemoveStaffClearsId(old(repo.staffList), staff.id);
    }
  }
}
