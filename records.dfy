/**
 * Attendance records of one enrollment, and the counts that the views derive
 * from them.
 */
module Records {

  const PresentStatus: string := "present"
  const AbsentStatus: string := "absent"

  /** One row of attendance_records: a class date, a status and free-text notes. */
  datatype AttendanceRecord = AttendanceRecord(classDate: string, status: string, notes: string)

  /** The two statuses the quick-mark handler accepts (app.py:336). */
  predicate KnownStatus(status: string)
  {
    status == PresentStatus || status == AbsentStatus
  }

  /** Every record carries one of the two known statuses. */
  predicate AllKnown(records: seq<AttendanceRecord>)
  {
    forall i :: 0 <= i < |records| ==> KnownStatus(records[i].status)
  }

  /** Number of records whose status is `status`. */
  function CountStatus(records: seq<AttendanceRecord>, status: string): (n: nat)
    ensures n <= |records|
  {
    if records == [] then 0
    else CountStatus(records[..|records| - 1], status)
         + (if records[|records| - 1].status == status then 1 else 0)
  }

  /** Appending one record adds one to its own status's count and leaves the others alone. */
  lemma CountAppend(records: seq<AttendanceRecord>, r: AttendanceRecord, status: string)
    ensures CountStatus(records + [r], status)
         == CountStatus(records, status) + (if r.status == status then 1 else 0)
  {
  }

  /**
   * When every status is known, the non-present records are exactly the
   * absent ones: held - present == absent.
   */
  lemma {:induction false} AbsentIsHeldMinusPresent(records: seq<AttendanceRecord>)
    requires AllKnown(records)
    ensures CountStatus(records, AbsentStatus) == |records| - CountStatus(records, PresentStatus)
  {
    if records != [] {
      var init := records[..|records| - 1];
      assert AllKnown(init) by {
        forall i | 0 <= i < |init| ensures KnownStatus(init[i].status) {
          assert init[i] == records[i];
        }
      }
      AbsentIsHeldMinusPresent(init);
      assert KnownStatus(records[|records| - 1].status);
    }
  }

  /**
   * A record with any other status is counted neither present nor absent,
   * so held - present overcounts the absent records.
   */
  lemma OtherStatusIsNotAbsent()
    ensures var records := [AttendanceRecord("2024-01-08", "late", "")];
      && CountStatus(records, PresentStatus) == 0
      && CountStatus(records, AbsentStatus) == 0
      && |records| - CountStatus(records, PresentStatus) == 1
  {
  }
}
