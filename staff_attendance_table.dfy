/**
 * The staff attendance table: how many rows it shows for a `limit`, and what the Time In
 * and Working Time cells of a row hold.
 */
module StaffAttendanceTable {
  import opened Wrappers
  import opened WorkingTime
  import opened StaffClock

  /** The end index `slice(0, end)` uses on a list of `n`: negative ends count from the back. */
  function SliceEnd(n: nat, end: int): (k: nat)
    ensures k <= n
    ensures end >= 0 ==> k == if end < n then end else n
    ensures end < 0 ==> k == if n + end > 0 then n + end else 0
  {
    if end >= 0 then (if end < n then end else n)
    else if n + end > 0 then n + end else 0
  }

  /** The rows loaded for `limit`: a missing or zero limit shows every row, any other one a slice. */
  function VisibleRows(staff: seq<StaffMember>, limit: Option<int>): (r: seq<StaffMember>)
    ensures r <= staff
    ensures limit.None? || limit.value == 0 ==> r == staff
  {
    if limit.None? || limit.value == 0 then staff else staff[..SliceEnd(|staff|, limit.value)]
  }

  /** A positive limit shows the first `limit` rows, or all of them when there are fewer. */
  lemma PositiveLimitShowsFirstRows(staff: seq<StaffMember>, limit: int)
    requires limit > 0
    ensures |VisibleRows(staff, Some(limit))| == if limit < |staff| then limit else |staff|
    ensures forall i :: 0 <= i < |VisibleRows(staff, Some(limit))| ==> VisibleRows(staff, Some(limit))[i] == staff[i]
  {
  }

  /** A negative limit drops that many rows from the end, leaving none when it exceeds the list. */
  lemma NegativeLimitDropsLastRows(staff: seq<StaffMember>, limit: int)
    requires limit < 0
    ensures |VisibleRows(staff, Some(limit))| == if |staff| + limit > 0 then |staff| + limit else 0
    ensures VisibleRows(staff, Some(limit)) == staff[..|VisibleRows(staff, Some(limit))|]
  {
  }

  /** The Time In cell: the `HH:MM` time, or "-" when there is none. */
  function TimeInCell(s: StaffMember): (r: string)
    ensures r == "-" <==> s.timeIn.None?
    ensures s.timeIn.Some? ==> ParseHHMM(r) == s.timeIn
  {
    if s.timeIn.Some? then
      FormatParseRoundTrip(s.timeIn.value);
      FormatHHMM(s.timeIn.value)
    else "-"
  }

  /** What the Working Time cell holds: "-", a running `Xh Ym`, or the day's total hours (hundredths). */
  datatype WorkingCell = Dash | Running(elapsed: Elapsed) | Total(hundredths: int)

  /**
   * The Working Time cell: on duty (clocked in or on break) the time since clock-in, or "-"
   * without a clock-in time; off duty the total hours when there are some, else "-".
   */
  function WorkingTimeCell(s: StaffMember, nowMs: int): (r: WorkingCell)
    ensures r.Running? <==> s.status != ClockedOut && s.timeIn.Some?
    ensures r.Running? ==> r.elapsed == Since(s.timeIn.value, nowMs)
    ensures r.Total? <==> s.status == ClockedOut && s.totalHours.Some? && s.totalHours.value != 0
    ensures r.Total? ==> s.totalHours == Some(r.hundredths)
  {
    match s.status
    case ClockedIn | OnBreak =>
      if s.timeIn.None? then Dash else Running(Since(s.timeIn.value, nowMs))
    case ClockedOut =>
      if s.totalHours.Some? && s.totalHours.value != 0 then Total(s.totalHours.value) else Dash
  }

  /** A clocked-out member with zero recorded hours shows "-", as one with no hours does. */
  lemma ZeroHoursShowDash(s: StaffMember, nowMs: int)
    requires s.status == ClockedOut && (s.totalHours == Some(0) || s.totalHours.None?)
    ensures WorkingTimeCell(s, nowMs) == Dash
  {
  }

  /** The table's running time agrees with the clock manager's live working time. */
  lemma RunningMatchesClockManager(s: StaffMember, nowMs: int)
    ensures WorkingTimeCell(s, nowMs).Running? <==> CurrentWorkingTime(s, nowMs).Some?
    ensures CurrentWorkingTime(s, nowMs).Some? ==>
              WorkingTimeCell(s, nowMs) == Running(CurrentWorkingTime(s, nowMs).value)
  {
  }
}
