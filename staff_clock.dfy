/**
 * The staff clock card: a staff member's attendance status, the status each clock button
 * produces, which buttons the card offers, and the live working time it shows.
 */
module StaffClock {
  import opened Wrappers
  import opened WorkingTime

  datatype Status = ClockedIn | ClockedOut | OnBreak

  datatype Action = ClockIn | ClockOut | Break

  /**
   * A staff member as the attendance pages hold one. A time that is missing or the empty
   * string is `None`; `totalHours` is in hundredths of an hour.
   */
  datatype StaffMember = StaffMember(
    id: string,
    name: string,
    department: string,
    position: string,
    status: Status,
    timeIn: Option<TimeOfDay>,
    timeOut: Option<TimeOfDay>,
    totalHours: Option<int>)

  /** The status a clock button produces from the member's current status. */
  function NextStatus(current: Status, action: Action): Status {
    match action
    case ClockIn => ClockedIn
    case ClockOut => ClockedOut
    case Break => if current == OnBreak then ClockedIn else OnBreak
  }

  /** Clocking in and clocking out do not depend on the status they start from. */
  lemma ClockActionsIgnorePriorStatus(a: Status, b: Status)
    ensures NextStatus(a, ClockIn) == NextStatus(b, ClockIn) == ClockedIn
    ensures NextStatus(a, ClockOut) == NextStatus(b, ClockOut) == ClockedOut
  {
  }

  /** Break starts a break when on duty and ends it when on break; two breaks in a row cancel out. */
  lemma BreakToggles(s: Status)
    requires s != ClockedOut
    ensures NextStatus(s, Break) != s && NextStatus(s, Break) != ClockedOut
    ensures NextStatus(NextStatus(s, Break), Break) == s
  {
  }

  /** The buttons the card shows: only Clock In when off duty, Break and Clock Out otherwise. */
  function OfferedActions(s: Status): (r: set<Action>)
    ensures ClockIn in r <==> s == ClockedOut
    ensures ClockOut in r <==> s != ClockedOut
    ensures Break in r <==> s != ClockedOut
  {
    if s == ClockedOut then {ClockIn} else {Break, ClockOut}
  }

  /** Every button the card offers changes the member's status, and clocking out is always reachable while on duty. */
  lemma OfferedActionsChangeStatus(s: Status, a: Action)
    requires a in OfferedActions(s)
    ensures NextStatus(s, a) != s
  {
  }

  /** The one `onStatusChange(staffId, newStatus)` call a button click makes. */
  datatype StatusChange = StatusChange(staffId: string, status: Status)

  /** What a click on `action` reports for `staff`: its own id and the new status. */
  function HandleClockAction(staff: StaffMember, action: Action): (c: StatusChange)
    ensures c.staffId == staff.id
    ensures action == ClockIn ==> c.status == ClockedIn
    ensures action == ClockOut ==> c.status == ClockedOut
    ensures action == Break ==> c.status != staff.status && c.status != ClockedOut
    ensures action == Break ==> c.status == (if staff.status == OnBreak then ClockedIn else OnBreak)
  {
    StatusChange(staff.id, NextStatus(staff.status, action))
  }

  /**
   * The working time on the card at `nowMs` milliseconds after midnight: none without a
   * clock-in time or once clocked out.
   */
  function CurrentWorkingTime(staff: StaffMember, nowMs: int): (r: Option<Elapsed>)
    ensures r.None? <==> staff.timeIn.None? || staff.status == ClockedOut
    ensures r.Some? ==> r.value == Since(staff.timeIn.value, nowMs)
    ensures r.Some? && nowMs >= staff.timeIn.value * MS_PER_MINUTE ==>
              0 <= r.value.minutes < 60 &&
              r.value.hours * 60 + r.value.minutes == nowMs / MS_PER_MINUTE - staff.timeIn.value
  {
    if staff.timeIn.None? || staff.status == ClockedOut then None
    else
      var diff := nowMs - staff.timeIn.value * MS_PER_MINUTE;
      SplitNonNegativeWhen(diff);
      Some(Since(staff.timeIn.value, nowMs))
  }

  lemma SplitNonNegativeWhen(diff: int)
    ensures diff >= 0 ==> 0 <= Split(diff).minutes < 60 && Split(diff).hours * 60 + Split(diff).minutes == diff / MS_PER_MINUTE
  {
    if diff >= 0 { SplitNonNegative(diff); }
  }
}
