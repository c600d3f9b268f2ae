/**
 * The staff attendance page: the list of staff, the status change the clock card reports
 * back, the headline counts, the department and search filters, and the selected member.
 */
module Attendance {
  import opened Wrappers
  import opened Seqs
  import opened Text
  import opened StaffClock

  /** The list with the status of every member whose id is `staffId` replaced by `status`. */
  function SetStatus(staff: seq<StaffMember>, staffId: string, status: Status): (r: seq<StaffMember>)
    ensures |r| == |staff|
    ensures forall i :: 0 <= i < |staff| && staff[i].id != staffId ==> r[i] == staff[i]
    ensures forall i :: 0 <= i < |staff| && staff[i].id == staffId ==> r[i] == staff[i].(status := status)
    decreases |staff|
  {
    if |staff| == 0 then []
    else
      [if staff[0].id == staffId then staff[0].(status := status) else staff[0]]
      + SetStatus(staff[1..], staffId, status)
  }

  /** A status change for an id nobody has leaves the list as it was. */
  lemma SetStatusUnknownId(staff: seq<StaffMember>, staffId: string, status: Status)
    requires forall i :: 0 <= i < |staff| ==> staff[i].id != staffId
    ensures SetStatus(staff, staffId, status) == staff
  {
  }

  datatype Stats = Stats(totalStaff: nat, activeStaff: nat, onBreak: nat, offDuty: nat)

  predicate IsActive(s: StaffMember) { s.status == ClockedIn }
  predicate IsOnBreak(s: StaffMember) { s.status == OnBreak }
  predicate IsOffDuty(s: StaffMember) { s.status == ClockedOut }

  /** The four headline counts; every member is counted in exactly one of the three status cards. */
  function CalculateStats(staff: seq<StaffMember>): (st: Stats)
    ensures st.totalStaff == |staff|
    ensures st.activeStaff + st.onBreak + st.offDuty == st.totalStaff
  {
    CountThree(IsActive, IsOnBreak, IsOffDuty, staff);
    Stats(|staff|, Count(IsActive, staff), Count(IsOnBreak, staff), Count(IsOffDuty, staff))
  }

  /** The search box matches on name or department; the department filter 'all' lets everyone through. */
  predicate MatchesStaff(s: StaffMember, searchTerm: string, department: string) {
    && (ContainsIgnoreCase(s.name, searchTerm) || ContainsIgnoreCase(s.department, searchTerm))
    && (department == "all" || s.department == department)
  }

  function FilteredStaff(staff: seq<StaffMember>, searchTerm: string, department: string): seq<StaffMember> {
    Filter((s: StaffMember) => MatchesStaff(s, searchTerm, department), staff)
  }

  /** The filtered staff are exactly the matching members, each as often as listed, in list order. */
  lemma {:induction false} FilteredStaffSpec(staff: seq<StaffMember>, searchTerm: string, department: string, m: StaffMember)
    ensures m in FilteredStaff(staff, searchTerm, department) <==> m in staff && MatchesStaff(m, searchTerm, department)
    ensures multiset(FilteredStaff(staff, searchTerm, department))[m] ==
              if MatchesStaff(m, searchTerm, department) then multiset(staff)[m] else 0
    ensures IsSubseq(FilteredStaff(staff, searchTerm, department), staff)
  {
    var p := (s: StaffMember) => MatchesStaff(s, searchTerm, department);
    FilterMembership(p, staff, m);
    FilterMultiset(p, staff, m);
    FilterIsSubseq(p, staff);
  }

  /** With no search term and the 'all' department, nobody is filtered out. */
  lemma {:induction false} NoFilterKeepsEveryone(staff: seq<StaffMember>)
    ensures FilteredStaff(staff, "", "all") == staff
  {
    forall i | 0 <= i < |staff| ensures MatchesStaff(staff[i], "", "all") {
      EmptyTermMatches(staff[i].name);
    }
    FilterKeepsAll((s: StaffMember) => MatchesStaff(s, "", "all"), staff);
  }

  function DepartmentsOf(staff: seq<StaffMember>): (r: seq<string>)
    ensures |r| == |staff| && forall i :: 0 <= i < |staff| ==> r[i] == staff[i].department
  {
    seq(|staff|, i requires 0 <= i < |staff| => staff[i].department)
  }

  /** The department choices: 'all', then each department once, in order of first appearance. */
  function Departments(staff: seq<StaffMember>): (r: seq<string>)
    ensures |r| >= 1 && r[0] == "all"
    ensures forall i :: 0 <= i < |staff| ==> staff[i].department in r[1..]
    ensures forall k :: 1 <= k < |r| ==> r[k] in DepartmentsOf(staff)
  {
    ["all"] + Distinct(DepartmentsOf(staff))
  }

  /** After 'all', no department is offered twice, and departments appear in the order they are first met. */
  lemma {:induction false} DepartmentsOrder(staff: seq<StaffMember>)
    ensures NoDup(Departments(staff)[1..])
    ensures forall i, j :: 1 <= i < j < |Departments(staff)| ==>
              FirstIndex(DepartmentsOf(staff), Departments(staff)[i]) < FirstIndex(DepartmentsOf(staff), Departments(staff)[j])
  {
    var d := DepartmentsOf(staff);
    DistinctOrder(d);
    assert Departments(staff)[1..] == Distinct(d);
    forall i, j | 1 <= i < j < |Departments(staff)|
      ensures FirstIndex(d, Departments(staff)[i]) < FirstIndex(d, Departments(staff)[j])
    {
      assert Departments(staff)[i] == Distinct(d)[i - 1];
      assert Departments(staff)[j] == Distinct(d)[j - 1];
    }
  }

  /** The member shown in the single-member view: none without a (non-empty) selection or without a match. */
  function SelectedStaff(staff: seq<StaffMember>, selectedEmployee: Option<string>): (r: Option<StaffMember>)
    ensures selectedEmployee.None? || selectedEmployee == Some("") ==> r.None?
    ensures r.Some? ==> r.value in staff && Some(r.value.id) == selectedEmployee
    ensures r.Some? ==> exists i :: 0 <= i < |staff| && staff[i] == r.value &&
                          forall k :: 0 <= k < i ==> staff[k].id != r.value.id
    ensures r.None? && selectedEmployee.Some? && selectedEmployee.value != "" ==>
              forall i :: 0 <= i < |staff| ==> staff[i].id != selectedEmployee.value
  {
    match selectedEmployee
    case None => None
    case Some(id) => if id == "" then None else Find((s: StaffMember) => s.id == id, staff)
  }

  /** The page's state: the staff list, the selection and the filters. */
  class AttendancePage {
    var staffMembers: seq<StaffMember>
    var selectedEmployee: Option<string>
    var searchTerm: string
    var selectedDepartment: string

    constructor (staff: seq<StaffMember>, employeeParam: Option<string>)
      ensures staffMembers == staff && selectedEmployee == employeeParam
      ensures searchTerm == "" && selectedDepartment == "all"
    {
      staffMembers := staff;
      selectedEmployee := employeeParam;
      searchTerm := "";
      selectedDepartment := "all";
    }

    /** `handleStaffStatusChange`: only members with that id change, and only in their status. */
    method HandleStaffStatusChange(staffId: string, status: Status)
      modifies this
      ensures staffMembers == SetStatus(old(staffMembers), staffId, status)
      ensures selectedEmployee == old(selectedEmployee) && searchTerm == old(searchTerm)
      ensures selectedDepartment == old(selectedDepartment)
    {
      staffMembers := SetStatus(staffMembers, staffId, status);
    }

    /** A click on the selected member's clock card reaches that member in the list. */
    method ClockSelected(action: Action) returns (change: Option<StatusChange>)
      modifies this
      ensures change.None? <==> SelectedStaff(old(staffMembers), old(selectedEmployee)).None?
      ensures change.Some? ==>
                var m := SelectedStaff(old(staffMembers), old(selectedEmployee)).value;
                change.value == HandleClockAction(m, action) &&
                staffMembers == SetStatus(old(staffMembers), m.id, NextStatus(m.status, action))
      ensures change.None? ==> staffMembers == old(staffMembers)
      ensures selectedEmployee == old(selectedEmployee) && searchTerm == old(searchTerm)
      ensures selectedDepartment == old(selectedDepartment)
    {
      var selected := SelectedStaff(staffMembers, selectedEmployee);
      if selected.None? {
        change := None;
      } else {
        var c := HandleClockAction(selected.value, action);
        HandleStaffStatusChange(c.staffId, c.status);
        change := Some(c);
      }
    }

    /** "Back to Overview" clears the selection and nothing else. */
    method BackToOverview()
      modifies this
      ensures selectedEmployee == None
      ensures staffMembers == old(staffMembers) && searchTerm == old(searchTerm)
      ensures selectedDepartment == old(selectedDepartment)
    {
      selectedEmployee := None;
    }
  }
}
