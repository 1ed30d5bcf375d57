/**
 * The write path that feeds the projector: marking attendance appends one
 * record to an enrollment, and is refused once as many records exist as the
 * course has planned classes. This guard is what keeps held <= total, which
 * the projector's remaining-classes count relies on.
 */
module Marking {
  import opened Projector
  import opened Records

  /** The notes the quick-mark handler stores with its record (app.py:377). */
  const QuickMarkNotes: string := "Quick marked from dashboard"

  /** How a marking request ended. */
  datatype MarkOutcome =
    | Marked
    | LimitReached(held: nat, total: int)  // refused: every planned class already has a record
    | InsertFailed                         // the database rejected the insert
    | InvalidStatus                        // quick-mark only: status other than present/absent

  /** One enrollment (a user in a course) and its attendance records. */
  class Enrollment {
    const totalClasses: int
    var records: seq<AttendanceRecord>

    /** An enrollment as loaded from storage. */
    constructor (totalClasses: int, records: seq<AttendanceRecord>)
      ensures this.totalClasses == totalClasses && this.records == records
    {
      this.totalClasses := totalClasses;
      this.records := records;
    }

    /** The invariant the write path maintains: never more records than planned classes. */
    predicate Valid()
      reads this
    {
      |records| <= totalClasses
    }

    /**
     * The projection of this enrollment's records. Under the invariant the
     * remaining classes are exactly total - held, the current percentage lies
     * in [0, 100], and whatever can be missed is among the remaining classes.
     */
    function Standing(requiredPercentage: real): (r: Report)
      reads this
      requires Valid()
      ensures r.remainingClasses == totalClasses - |records|
      ensures 0.0 <= r.attendancePercentage <= 100.0
      ensures 0 <= r.classesCanMiss <= totalClasses - |records|
      ensures !(r.dangerZone && r.deadZone)
    {
      var present := CountStatus(records, PresentStatus);
      RemainingClasses(totalClasses, |records|, present, requiredPercentage);
      PercentageBounds(totalClasses, present);
      CanMissBounds(totalClasses, |records|, present, requiredPercentage);
      ZonesExclusive(totalClasses, |records|, present, requiredPercentage);
      Project(totalClasses, |records|, present, requiredPercentage)
    }

    /**
     * The form handler (app.py:281-307): refused when held >= total; otherwise
     * the record is inserted, unless the database rejects it. The status is not
     * checked here. Held never rises above the total unless it already was.
     */
    method Mark(classDate: string, status: string, notes: string, insertSucceeds: bool)
      returns (outcome: MarkOutcome)
      modifies this
      ensures old(|records|) >= totalClasses ==>
        outcome == LimitReached(old(|records|), totalClasses) && records == old(records)
      ensures old(|records|) < totalClasses && insertSucceeds ==>
        outcome == Marked && records == old(records) + [AttendanceRecord(classDate, status, notes)]
      ensures old(|records|) < totalClasses && !insertSucceeds ==>
        outcome == InsertFailed && records == old(records)
      ensures outcome == Marked ==> |records| == old(|records|) + 1 <= totalClasses
      ensures old(Valid()) ==> Valid()
    {
      var classesHeld := |records|;
      if classesHeld >= totalClasses {
        return LimitReached(classesHeld, totalClasses);
      }
      if insertSucceeds {
        records := records + [AttendanceRecord(classDate, status, notes)];
        outcome := Marked;
      } else {
        outcome := InsertFailed;
      }
    }

    /**
     * The dashboard's quick-mark (app.py:332-386): any status other than
     * present or absent is refused before anything else; then the same guard
     * as Mark, with today's date and fixed notes. The records it adds always
     * carry a known status.
     */
    method QuickMark(status: string, today: string, insertSucceeds: bool)
      returns (outcome: MarkOutcome)
      modifies this
      ensures !KnownStatus(status) ==> outcome == InvalidStatus && records == old(records)
      ensures KnownStatus(status) && old(|records|) >= totalClasses ==>
        outcome == LimitReached(old(|records|), totalClasses) && records == old(records)
      ensures KnownStatus(status) && old(|records|) < totalClasses && insertSucceeds ==>
        outcome == Marked && records == old(records) + [AttendanceRecord(today, status, QuickMarkNotes)]
      ensures KnownStatus(status) && old(|records|) < totalClasses && !insertSucceeds ==>
        outcome == InsertFailed && records == old(records)
      ensures old(Valid()) ==> Valid()
      ensures old(AllKnown(records)) ==> AllKnown(records)
    {
      if !KnownStatus(status) {
        return InvalidStatus;
      }
      outcome := Mark(today, status, QuickMarkNotes, insertSucceeds);
    }
  }

  /**
   * A course stored with a negative total: its fresh enrollment is outside the
   * invariant from the start, and the guard refuses the first mark.
   */
  method NegativeTotalCourse(day: string) returns (e: Enrollment, outcome: MarkOutcome)
    ensures !e.Valid() && e.records == []
    ensures outcome == LimitReached(0, -1)
  {
    e := new Enrollment(-1, []);
    outcome := e.Mark(day, PresentStatus, "", true);
  }

  /**
   * Filling a fresh course through the guard: five marks on a two-class course
   * store exactly two records, and the projection then has nothing remaining.
   */
  method FillCourse(day1: string, day2: string, day3: string) returns (e: Enrollment)
    ensures e.totalClasses == 2 && e.Valid()
    ensures e.records == [AttendanceRecord(day1, PresentStatus, ""), AttendanceRecord(day2, AbsentStatus, "")]
    ensures e.Standing(DefaultRequiredPercentage).remainingClasses == 0
  {
    e := new Enrollment(2, []);
    var o1 := e.Mark(day1, PresentStatus, "", true);
    var o2 := e.Mark(day2, AbsentStatus, "", true);
    var o3 := e.Mark(day3, PresentStatus, "", true);
    assert o3 == LimitReached(2, 2);
    var o4 := e.QuickMark("late", day3, true);
    assert o4 == InvalidStatus;
    var o5 := e.QuickMark(PresentStatus, day3, true);
    assert o5 == LimitReached(2, 2);
  }
}
