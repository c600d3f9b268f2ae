/**
 * The personal time clock: today's clock record, its life cycle (none, clocked in,
 * clocked out, replaced by a new clock-in), the hours worked in hundredths of an hour,
 * and the copy kept in browser storage under a key made from the date.
 */
module ClockInOut {
  import opened Wrappers
  import opened WorkingTime

  datatype ClockStatus = ClockedIn | ClockedOut

  /**
   * A clock record. `id` is the millisecond timestamp in `clock-<timestamp>`; times are the
   * `HH:MM` strings read as times of day; `totalHours` is in hundredths of an hour.
   */
  datatype ClockRecord = ClockRecord(
    id: int,
    date: string,
    timeIn: TimeOfDay,
    timeOut: Option<TimeOfDay>,
    totalHours: Option<int>,
    status: ClockStatus)

  /** The storage key `clock-<date>`. */
  function StorageKey(date: string): (k: string)
    ensures |k| == |date| + 6 && k[6..] == date
  {
    "clock-" + date
  }

  /**
   * `calculateHours`: the time from `timeIn` to `timeOut` the same day, in hours rounded to
   * the nearest hundredth (`Math.round`, so halves would go up), given in hundredths.
   */
  function CalculateHours(timeIn: TimeOfDay, timeOut: TimeOfDay): (h: int)
    ensures 10 * (timeOut - timeIn) - 3 < 6 * h <= 10 * (timeOut - timeIn) + 3
  {
    (10 * (timeOut - timeIn) + 3) / 6
  }

  /**
   * The result is the one hundredth of an hour nearest to the elapsed minutes: no other
   * number of hundredths is within half a hundredth (3 minutes per 50 hundredths).
   */
  lemma {:induction false} CalculateHoursNearest(timeIn: TimeOfDay, timeOut: TimeOfDay, h: int)
    requires 10 * (timeOut - timeIn) - 3 < 6 * h <= 10 * (timeOut - timeIn) + 3
    ensures h == CalculateHours(timeIn, timeOut)
  {
    var c := CalculateHours(timeIn, timeOut);
    assert -6 < 6 * (h - c) < 6;
  }

  /** 08:00 to 17:30 is 9.5 hours; whole hours come out exact. */
  lemma CalculateHoursExamples(timeIn: TimeOfDay, hours: nat)
    requires timeIn + 60 * hours < MINUTES_PER_DAY
    ensures CalculateHours(480, 1050) == 950
    ensures CalculateHours(timeIn, timeIn + 60 * hours) == 100 * hours
  {
  }

  /** The record `handleClockIn` creates at `stamp` ms, on `date`, at time of day `now`. */
  function NewRecord(stamp: int, date: string, now: TimeOfDay): (r: ClockRecord)
    ensures r.id == stamp && r.date == date && r.timeIn == now && r.status == ClockedIn
    ensures r.timeOut.None? && r.totalHours.None?
  {
    ClockRecord(stamp, date, now, None, None, ClockedIn)
  }

  /** The record `handleClockOut` makes of `r` at time of day `now`. */
  function ClockedOutRecord(r: ClockRecord, now: TimeOfDay): (u: ClockRecord)
    ensures u.id == r.id && u.date == r.date && u.timeIn == r.timeIn
    ensures u.timeOut == Some(now) && u.status == ClockedOut
    ensures u.totalHours == Some(CalculateHours(r.timeIn, now))
  {
    r.(timeOut := Some(now), totalHours := Some(CalculateHours(r.timeIn, now)), status := ClockedOut)
  }

  /** The card offers Clock In when there is no record or it is clocked out, and Clock Out otherwise. */
  predicate OffersClockIn(today: Option<ClockRecord>) {
    today.None? || today.value.status == ClockedOut
  }

  /** Following the offered button always flips the offer: clock-in and clock-out alternate. */
  lemma OfferAlternates(today: Option<ClockRecord>, stamp: int, date: string, now: TimeOfDay)
    ensures !OffersClockIn(Some(NewRecord(stamp, date, now)))
    ensures !OffersClockIn(today) ==> OffersClockIn(Some(ClockedOutRecord(today.value, now)))
  {
  }

  /** The live working time: none without a record or once clocked out. */
  function CurrentWorkingTime(today: Option<ClockRecord>, nowMs: int): (r: Option<Elapsed>)
    ensures r.None? <==> OffersClockIn(today)
    ensures r.Some? ==> r.value == Since(today.value.timeIn, nowMs)
  {
    if today.None? || today.value.status == ClockedOut then None
    else Some(Since(today.value.timeIn, nowMs))
  }

  /** The time clock card: today's record and the storage it mirrors. */
  class TimeClock {
    var todayRecord: Option<ClockRecord>
    var storage: map<string, ClockRecord>

    /** Mounting on `today`: pick up the record stored under today's key, if any. */
    constructor (stored: map<string, ClockRecord>, today: string)
      ensures storage == stored
      ensures todayRecord == if StorageKey(today) in stored then Some(stored[StorageKey(today)]) else None
    {
      storage := stored;
      todayRecord := if StorageKey(today) in stored then Some(stored[StorageKey(today)]) else None;
    }

    /** `handleClockIn`: a fresh record replaces whatever was there and is stored under today's key. */
    method HandleClockIn(stamp: int, today: string, now: TimeOfDay)
      modifies this
      ensures todayRecord == Some(NewRecord(stamp, today, now))
      ensures storage == old(storage)[StorageKey(today) := NewRecord(stamp, today, now)]
    {
      var record := NewRecord(stamp, today, now);
      todayRecord := Some(record);
      storage := storage[StorageKey(today) := record];
    }

    /** `handleClockOut`: nothing without a record; otherwise close it and store it under the current day's key. */
    method HandleClockOut(today: string, now: TimeOfDay)
      modifies this
      ensures old(todayRecord).None? ==> todayRecord == old(todayRecord) && storage == old(storage)
      ensures old(todayRecord).Some? ==>
                todayRecord == Some(ClockedOutRecord(old(todayRecord).value, now)) &&
                storage == old(storage)[StorageKey(today) := ClockedOutRecord(old(todayRecord).value, now)]
    {
      if todayRecord.None? {
        return;
      }
      var updated := ClockedOutRecord(todayRecord.value, now);
      todayRecord := Some(updated);
      storage := storage[StorageKey(today) := updated];
    }
  }
}
