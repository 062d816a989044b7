/** app/page.tsx: the page's "Add Staff" dialog and the list of staff cards. */
module Home {
  import opened Records
  import opened Storage
  import opened StaffHook
  import opened Cards

  /** `handleAdd`'s guard and record: nothing unless both name and role are filled in;
      otherwise a record with the fresh id and the name and role exactly as entered. */
  function NewStaff(freshId: string, name: string, role: string): (r: Option<Staff>)
    ensures r.Some? <==> name != "" && role != ""
    ensures r.Some? ==> r.value.id == freshId && r.value.name == name && r.value.role == role
  {
    if name == "" || role == "" then None else Some(Staff(freshId, name, role))
  }

  /** The state of the page. */
  class HomePage {
    const repo: StaffRepository
    var open: bool
    var name: string
    var role: string

    constructor (repo: StaffRepository)
      ensures this.repo == repo && !open && name == "" && role == ""
    {
      this.repo := repo;
      open := false;
      name := "";
      role := "";
    }

    /** `handleAdd`: with an empty name or role nothing changes; otherwise the new record is
        added once, and the fields are cleared and the dialog closed. */
    method HandleAdd(freshId: string)
      requires repo.store.inBrowser
      modifies this, repo, repo.store
      ensures NewStaff(freshId, old(name), old(role)).None? ==>
        unchanged(this) && unchanged(repo) && unchanged(repo.store)
      ensures NewStaff(freshId, old(name), old(role)).Some? ==>
        && repo.staffList == old(repo.staffList) + [Staff(freshId, old(name), old(role))]
        && repo.store.entries == Put(old(repo.store.entries), StaffKey, repo.staffList)
        && name == "" && role == "" && !open
    {
      var created := NewStaff(freshId, name, role);
      if created.None? {
        return;
      }
      repo.AddStaff(created.value);
      name := "";
      role := "";
      open := false;
    }

    /** `staffList.map(...)`: one card per record, in list order, each starting from its
        record's name and role. */
    method RenderCards() returns (cards: seq<StaffCard>)
      ensures |cards| == |repo.staffList|
      ensures forall i :: 0 <= i < |cards| ==>
        && fresh(cards[i]) && cards[i].staff == repo.staffList[i] && cards[i].repo == repo
        && cards[i].name == repo.staffList[i].name && cards[i].role == repo.staffList[i].role
        && !cards[i].editOpen
    {
      cards := [];
      var i := 0;
      while i < |repo.staffList|
        invariant 0 <= i <= |repo.staffList| && |cards| == i
        invariant forall k :: 0 <= k < i ==>
          && fresh(cards[k]) && cards[k].staff == repo.staffList[k] && cards[k].repo == repo
          && cards[k].name == repo.staffList[k].name && cards[k].role == repo.staffList[k].role
          && !cards[k].editOpen
      {
        var card := new StaffCard(repo.staffList[i], repo);
        cards := cards + [card];
        i := i + 1;
      }
    }
  }
}
