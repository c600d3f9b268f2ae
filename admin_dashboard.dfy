/**
 * The admin attendance dashboard: the sort-toggle state, the three filters (employee,
 * department, search term) and the table ordered by the chosen column and direction.
 */
module AdminDashboard {
  import opened Wrappers
  import opened Seqs
  import opened Text

  /** One attendance row; `clockIn`, `clockOut` and `totalHours` are the strings shown. */
  datatype AttendanceEntry = AttendanceEntry(
    id: int,
    employeeId: string,
    name: string,
    department: string,
    location: string,
    date: string,
    clockIn: string,
    clockOut: Option<string>,
    totalHours: string,
    status: string,
    notes: string,
    duration: int)

  /** The sortable columns whose values are always strings. */
  datatype SortField = Name | Department | ClockIn | TotalHours
  datatype Direction = Asc | Desc
  datatype SortState = SortState(field: SortField, direction: Direction)

  const InitialSort := SortState(Name, Asc)

  function Flip(d: Direction): (e: Direction)
    ensures e != d
  {
    if d == Asc then Desc else Asc
  }

  /** `handleSort`: clicking the current column flips the direction; another column starts ascending. */
  function NextSort(s: SortState, field: SortField): (r: SortState)
    ensures r.field == field
    ensures s.field == field ==> r.direction != s.direction
    ensures s.field != field ==> r.direction == Asc
  {
    if s.field == field then SortState(field, Flip(s.direction)) else SortState(field, Asc)
  }

  /** Two clicks on the column already sorted by give back the state before them. */
  lemma TwoClicksRestore(s: SortState)
    ensures NextSort(NextSort(s, s.field), s.field) == s
  {
  }

  /** Two clicks on a new column leave it sorted descending, whatever the state was. */
  lemma TwoClicksOnNewColumn(s: SortState, field: SortField)
    requires s.field != field
    ensures NextSort(NextSort(s, field), field) == SortState(field, Desc)
  {
  }

  /** The row's value in a sortable column. */
  function Key(e: AttendanceEntry, field: SortField): string {
    match field
    case Name => e.name
    case Department => e.department
    case ClockIn => e.clockIn
    case TotalHours => e.totalHours
  }

  /**
   * "`a` may come before `b`" for the comparator of the page, which answers negative,
   * positive or zero from JavaScript's `<` and `>` on the column's strings.
   */
  function Precedes(field: SortField, direction: Direction): (AttendanceEntry, AttendanceEntry) -> bool {
    (a: AttendanceEntry, b: AttendanceEntry) =>
      if direction == Asc then !StrLess(Key(b, field), Key(a, field))
      else !StrLess(Key(a, field), Key(b, field))
  }

  /** The comparator describes a consistent order in both directions. */
  lemma {:induction false} PrecedesIsPreorder(field: SortField, direction: Direction)
    ensures TotalPreorder(Precedes(field, direction))
  {
    var le := Precedes(field, direction);
    forall x, y ensures le(x, y) || le(y, x) {
      StrLessTrichotomy(Key(x, field), Key(y, field));
    }
    forall x, y, z | le(x, y) && le(y, z) ensures le(x, z) {
      var a, b, c := Key(x, field), Key(y, field), Key(z, field);
      StrLessTrichotomy(a, b);
      StrLessTrichotomy(b, c);
      StrLessTrichotomy(a, c);
      if StrLess(a, b) && StrLess(b, c) {
        StrLessTransitive(a, b, c);
      }
      if StrLess(c, b) && StrLess(b, a) {
        StrLessTransitive(c, b, a);
      }
    }
  }

  /** The three filters; "all" and an empty search term do not restrict. */
  predicate Matches(e: AttendanceEntry, employee: string, department: string, searchTerm: string) {
    && (employee == "all" || e.employeeId == employee)
    && (department == "all" || e.department == department)
    && (searchTerm == "" || ContainsIgnoreCase(e.name, searchTerm) || ContainsIgnoreCase(e.employeeId, searchTerm))
  }

  /** `filteredAndSortedData`: the matching rows, stably sorted by the chosen column and direction. */
  function FilteredAndSorted(rows: seq<AttendanceEntry>, employee: string, department: string,
                             searchTerm: string, sort: SortState): (r: seq<AttendanceEntry>)
    ensures |r| <= |rows|
  {
    SortBy(Precedes(sort.field, sort.direction),
           Filter((e: AttendanceEntry) => Matches(e, employee, department, searchTerm), rows))
  }

  /**
   * The table shows every matching row as often as it occurs and no other row, ordered
   * non-decreasing in the column when ascending and non-increasing when descending.
   */
  lemma {:induction false} FilteredAndSortedSpec(rows: seq<AttendanceEntry>, employee: string, department: string,
                                                 searchTerm: string, sort: SortState, e: AttendanceEntry)
    ensures multiset(FilteredAndSorted(rows, employee, department, searchTerm, sort))[e] ==
              if Matches(e, employee, department, searchTerm) then multiset(rows)[e] else 0
    ensures var r := FilteredAndSorted(rows, employee, department, searchTerm, sort);
            forall i, j :: 0 <= i < j < |r| ==>
              if sort.direction == Asc then !StrLess(Key(r[j], sort.field), Key(r[i], sort.field))
              else !StrLess(Key(r[i], sort.field), Key(r[j], sort.field))
  {
    var p := (x: AttendanceEntry) => Matches(x, employee, department, searchTerm);
    FilterMultiset(p, rows, e);
    PrecedesIsPreorder(sort.field, sort.direction);
    SortBySorted(Precedes(sort.field, sort.direction), Filter(p, rows));
  }

  /** With every filter at its default the table lists every row. */
  lemma {:induction false} DefaultFiltersShowAll(rows: seq<AttendanceEntry>, sort: SortState)
    ensures multiset(FilteredAndSorted(rows, "all", "all", "", sort)) == multiset(rows)
  {
    var p := (x: AttendanceEntry) => Matches(x, "all", "all", "");
    FilterKeepsAll(p, rows);
  }

  /** The durations are compared as strings: "10:30" sorts before "9:00" ascending. */
  lemma DurationsSortAsText(a: AttendanceEntry, b: AttendanceEntry)
    requires a.totalHours == "10:30" && b.totalHours == "9:00"
    ensures Precedes(TotalHours, Asc)(a, b) && !Precedes(TotalHours, Asc)(b, a)
  {
    assert StrLess("10:30", "9:00");
  }

  /** The overtime dot beside the duration. */
  predicate ShowsOvertime(e: AttendanceEntry) {
    e.duration > 540
  }

  /** The dot appears exactly for rows of more than nine hours; nine hours sharp shows none. */
  lemma OvertimeMarker(e: AttendanceEntry)
    ensures e.duration <= 9 * 60 ==> !ShowsOvertime(e)
    ensures e.duration > 9 * 60 ==> ShowsOvertime(e)
    ensures !ShowsOvertime(e.(duration := 9 * 60)) && ShowsOvertime(e.(duration := 9 * 60 + 1))
  {
  }

  /** The dashboard's state over its (never replaced) attendance rows. */
  class AdminDashboardPage {
    var rows: seq<AttendanceEntry>
    var selectedEmployee: string
    var selectedDepartment: string
    var searchTerm: string
    var sort: SortState
    var editingRecord: Option<AttendanceEntry>

    constructor (data: seq<AttendanceEntry>)
      ensures rows == data && sort == InitialSort && editingRecord.None?
      ensures selectedEmployee == "all" && selectedDepartment == "all" && searchTerm == ""
    {
      rows := data;
      selectedEmployee, selectedDepartment, searchTerm := "all", "all", "";
      sort := InitialSort;
      editingRecord := None;
    }

    function Shown(): seq<AttendanceEntry>
      reads this
    {
      FilteredAndSorted(rows, selectedEmployee, selectedDepartment, searchTerm, sort)
    }

    method HandleSort(field: SortField)
      modifies this
      ensures sort == NextSort(old(sort), field)
      ensures rows == old(rows) && editingRecord == old(editingRecord)
      ensures selectedEmployee == old(selectedEmployee) && selectedDepartment == old(selectedDepartment)
      ensures searchTerm == old(searchTerm)
    {
      sort := NextSort(sort, field);
    }

    method HandleEditRecord(e: AttendanceEntry)
      modifies this
      ensures editingRecord == Some(e)
      ensures rows == old(rows) && sort == old(sort) && searchTerm == old(searchTerm)
      ensures selectedEmployee == old(selectedEmployee) && selectedDepartment == old(selectedDepartment)
    {
      editingRecord := Some(e);
    }

    /** `handleSaveEdit` only closes the dialog: the rows stay as they were. */
    method HandleSaveEdit()
      modifies this
      ensures editingRecord.None?
      ensures rows == old(rows) && sort == old(sort) && searchTerm == old(searchTerm)
      ensures selectedEmployee == old(selectedEmployee) && selectedDepartment == old(selectedDepartment)
    {
      editingRecord := None;
    }

    /** `handleResolveAlert` only notifies: nothing on the page changes. */
    method HandleResolveAlert(alertId: int)
      ensures Shown() == old(Shown())
    {
    }
  }
}
