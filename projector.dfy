/**
 * The attendance projector: from a course's planned total, the classes held so
 * far, the classes attended and the required percentage, it derives the
 * current standing and a projection to the end of the course.
 *
 * Both the dashboard and the course-detail page of app.py carry their own copy
 * of this arithmetic (app.py:139-156 and app.py:214-239); here it is written
 * once, as `Project`, and both view assemblers in module Views call it.
 */
module Projector {

  /** The threshold used when no attendance setting is on record (app.py:113, app.py:205). */
  const DefaultRequiredPercentage: real := 60.0

  function Max(a: int, b: int): (m: int)
    ensures m >= a && m >= b
    ensures m == a || m == b
  {
    if a >= b then a else b
  }

  /** Python's `int(x)` on a number: truncation toward zero. */
  function Trunc(x: real): (t: int)
    ensures 0.0 <= x ==> t as real <= x < t as real + 1.0
    ensures x < 0.0 ==> t as real - 1.0 < x <= t as real
  {
    if x >= 0.0 then x.Floor else -((-x).Floor)
  }

  /** The mathematical ceiling: the least integer that is not below `x`. */
  function Ceil(x: real): (c: int)
    ensures x <= c as real < x + 1.0
  {
    -((-x).Floor)
  }

  /** Current standing, measured against the planned TOTAL, not the classes held (app.py:139). */
  function AttendancePercentage(total: int, present: nat): (p: real)
    ensures p >= 0.0
    ensures total <= 0 ==> p == 0.0
  {
    if total > 0 then present as real / total as real * 100.0 else 0.0
  }

  /** The exact number of presents the whole course calls for (app.py:142). */
  function RequiredPresent(requiredPercentage: real, total: int): (rp: real)
    ensures total > 0 && 0.0 <= requiredPercentage <= 100.0 ==> 0.0 <= rp <= total as real
  {
    requiredPercentage * total as real / 100.0
  }

  /**
   * Additional presents still needed, written the way app.py:143 writes it:
   * the truncated gap, plus one when a fractional part is left over, and never
   * below zero.
   */
  function ClassesNeeded(requiredPresent: real, present: nat): (n: int)
    ensures n >= 0
    ensures (present + n) as real >= requiredPresent
  {
    var gap := requiredPresent - present as real;
    Max(0, Trunc(gap) + (if gap > Trunc(gap) as real then 1 else 0))
  }

  /** What the projector reports for one course. */
  datatype Report = Report(
    attendancePercentage: real,
    requiredPresent: real,
    classesNeeded: int,
    remainingClasses: int,
    classesCanMiss: int,
    dangerZone: bool,
    deadZone: bool)

  /** The shared projection of app.py:139-156 (dashboard) and app.py:214-239 (course detail). */
  function Project(total: int, held: nat, present: nat, requiredPercentage: real): (r: Report)
    ensures r.remainingClasses >= 0 && r.classesNeeded >= 0
    ensures 0 <= r.classesCanMiss <= r.remainingClasses
    ensures !(r.dangerZone && r.deadZone)
  {
    var requiredPresent := RequiredPresent(requiredPercentage, total);
    var needed := ClassesNeeded(requiredPresent, present);
    var remaining := Max(0, total - held);
    var canMiss := if needed > 0 then Max(0, remaining - needed) else remaining;
    Report(
      AttendancePercentage(total, present),
      requiredPresent,
      needed,
      remaining,
      canMiss,
      remaining > 0 && remaining == needed,
      (present + remaining) as real < requiredPresent)
  }

  // ---------------------------------------------------------------------------
  // The current percentage

  /** Never negative; zero without planned classes or without presents; at most 100 while presents stay within the total. */
  lemma PercentageBounds(total: int, present: nat)
    ensures AttendancePercentage(total, present) >= 0.0
    ensures total <= 0 ==> AttendancePercentage(total, present) == 0.0
    ensures total > 0 ==> (AttendancePercentage(total, present) == 0.0 <==> present == 0)
    ensures 0 < total && present <= total ==> AttendancePercentage(total, present) <= 100.0
  {
  }

  /** With planned classes, reaching the percentage is the same as reaching the required present count. */
  lemma PercentageReachedIff(total: int, present: nat, requiredPercentage: real)
    requires total > 0
    ensures AttendancePercentage(total, present) >= requiredPercentage
        <==> present as real >= RequiredPresent(requiredPercentage, total)
  {
    ScaledThreshold(present as real, total as real, requiredPercentage);
  }

  /** p / t * 100 >= q exactly when p >= q * t / 100, for a positive t. */
  lemma ScaledThreshold(p: real, t: real, q: real)
    requires t > 0.0
    ensures p / t * 100.0 >= q <==> p >= q * t / 100.0
  {
    var a := p / t * 100.0;
    assert (p / t) * t == p;
    assert a * t == p * 100.0;
    ScaleByPositive(a, q, t);
    ScaleByPositive(p, q * t / 100.0, 100.0);
  }

  /** Multiplying both sides by a positive factor keeps the order. */
  lemma ScaleByPositive(x: real, y: real, factor: real)
    requires factor > 0.0
    ensures x >= y <==> x * factor >= y * factor
  {
    if x >= y {
      assert (x - y) * factor >= 0.0;
    } else {
      assert (y - x) * factor > 0.0;
    }
  }

  // ---------------------------------------------------------------------------
  // Classes needed: the truncate-plus-fraction trick is a true ceiling

  /** `int(x) + (1 if x > int(x) else 0)` is the ceiling of `x`, for every sign of `x`. */
  lemma TruncPlusFractionIsCeil(x: real)
    ensures Trunc(x) + (if x > Trunc(x) as real then 1 else 0) == Ceil(x)
  {
  }

  /** The classes needed are the ceiling of the gap, clamped at zero. */
  lemma NeededIsClampedCeil(requiredPresent: real, present: nat)
    ensures ClassesNeeded(requiredPresent, present) == Max(0, Ceil(requiredPresent - present as real))
  {
  }

  /** Attending `extra` more classes brings the presents up to the required count. */
  predicate Reaches(requiredPresent: real, present: nat, extra: int)
  {
    (present + extra) as real >= requiredPresent
  }

  /** The classes needed are the least n >= 0 with present + n >= required present. */
  lemma NeededIsLeast(requiredPresent: real, present: nat)
    ensures ClassesNeeded(requiredPresent, present) >= 0
    ensures Reaches(requiredPresent, present, ClassesNeeded(requiredPresent, present))
    ensures forall k: int :: 0 <= k < ClassesNeeded(requiredPresent, present) ==> !Reaches(requiredPresent, present, k)
  {
  }

  /** No more classes are needed exactly when the presents already reach the required count. */
  lemma NeededZeroIff(requiredPresent: real, present: nat)
    ensures ClassesNeeded(requiredPresent, present) == 0 <==> present as real >= requiredPresent
  {
  }

  // ---------------------------------------------------------------------------
  // Remaining classes and classes that can be missed

  /** Remaining classes are never negative, and are exactly total - held while held <= total. */
  lemma RemainingClasses(total: int, held: nat, present: nat, requiredPercentage: real)
    ensures Project(total, held, present, requiredPercentage).remainingClasses >= 0
    ensures held <= total ==> Project(total, held, present, requiredPercentage).remainingClasses == total - held
    ensures held >= total ==> Project(total, held, present, requiredPercentage).remainingClasses == 0
  {
  }

  /** The classes that can be missed lie between 0 and the remaining classes; all of them when nothing is needed. */
  lemma CanMissBounds(total: int, held: nat, present: nat, requiredPercentage: real)
    ensures var r := Project(total, held, present, requiredPercentage);
      && 0 <= r.classesCanMiss <= r.remainingClasses
      && (r.classesNeeded == 0 ==> r.classesCanMiss == r.remainingClasses)
      && r.classesCanMiss == Max(0, r.remainingClasses - r.classesNeeded)
  {
  }

  /**
   * While the target is still reachable, missing `classesCanMiss` of the
   * remaining classes and attending the rest still reaches it, and missing one
   * more does not.
   */
  lemma CanMissIsMostThatCanBeMissed(total: int, held: nat, present: nat, requiredPercentage: real)
    ensures var r := Project(total, held, present, requiredPercentage);
      !r.deadZone ==>
        && (present + r.remainingClasses - r.classesCanMiss) as real >= r.requiredPresent
        && (r.classesCanMiss < r.remainingClasses ==>
              (present + r.remainingClasses - r.classesCanMiss - 1) as real < r.requiredPresent)
  {
  }

  // ---------------------------------------------------------------------------
  // Danger zone and dead zone

  /** The dead zone holds exactly when more classes are needed than remain. */
  lemma DeadZoneIff(total: int, held: nat, present: nat, requiredPercentage: real)
    ensures var r := Project(total, held, present, requiredPercentage);
      r.deadZone <==> r.classesNeeded > r.remainingClasses
  {
  }

  /**
   * The danger zone is exactly "some classes remain, none of them can be
   * missed, and the target is still reachable".
   */
  lemma DangerZoneIff(total: int, held: nat, present: nat, requiredPercentage: real)
    ensures var r := Project(total, held, present, requiredPercentage);
      r.dangerZone <==> r.remainingClasses > 0 && r.classesCanMiss == 0 && !r.deadZone
  {
  }

  /** The two warnings never hold together. */
  lemma ZonesExclusive(total: int, held: nat, present: nat, requiredPercentage: real)
    ensures var r := Project(total, held, present, requiredPercentage);
      !(r.dangerZone && r.deadZone)
  {
  }

  /**
   * In the dead zone no future attendance reaches the required percentage:
   * attending any a <= remaining further classes leaves the standing below it.
   * Out of it, attending every remaining class does reach it.
   */
  lemma DeadZoneIsHopeless(total: int, held: nat, present: nat, requiredPercentage: real, attended: nat)
    requires total > 0
    requires attended <= Project(total, held, present, requiredPercentage).remainingClasses
    ensures var r := Project(total, held, present, requiredPercentage);
      && (r.deadZone ==> AttendancePercentage(total, present + attended) < requiredPercentage)
      && (!r.deadZone ==> AttendancePercentage(total, present + r.remainingClasses) >= requiredPercentage)
  {
    var r := Project(total, held, present, requiredPercentage);
    PercentageReachedIff(total, present + attended, requiredPercentage);
    PercentageReachedIff(total, present + r.remainingClasses, requiredPercentage);
  }

  // ---------------------------------------------------------------------------
  // Worked scenarios

  /** 30 planned, 10 held, 8 present, 60%: 10 more needed, 10 of the 20 remaining can be missed. */
  lemma ScenarioOnTrack()
    ensures var r := Project(30, 10, 8, 60.0);
      && r.requiredPresent == 18.0 && r.classesNeeded == 10 && r.remainingClasses == 20
      && r.classesCanMiss == 10 && !r.dangerZone && !r.deadZone
  {
  }

  /** 30 planned, 25 held, 12 present, 60%: 6 needed but only 5 remain, so the target is lost. */
  lemma ScenarioLost()
    ensures var r := Project(30, 25, 12, 60.0);
      && r.requiredPresent == 18.0 && r.classesNeeded == 6 && r.remainingClasses == 5
      && r.classesCanMiss == 0 && !r.dangerZone && r.deadZone
  {
  }

  /** 10 planned, 5 held, 5 present, 100%: every one of the 5 remaining classes must be attended. */
  lemma ScenarioDanger()
    ensures var r := Project(10, 5, 5, 100.0);
      && r.requiredPresent == 10.0 && r.classesNeeded == 5 && r.remainingClasses == 5
      && r.classesCanMiss == 0 && r.dangerZone && !r.deadZone
  {
  }

  /** No planned classes: everything is zero and nothing is flagged. */
  lemma ScenarioEmptyCourse()
    ensures Project(0, 0, 0, 60.0) == Report(0.0, 0.0, 0, 0, 0, false, false)
  {
  }

  /** 20 planned, all 20 held, 15 present, 60%: the course is over with the target met; nothing is needed or flagged. */
  lemma ScenarioCourseOver()
    ensures var r := Project(20, 20, 15, 60.0);
      && r.requiredPresent == 12.0 && r.classesNeeded == 0 && r.remainingClasses == 0
      && r.classesCanMiss == 0 && !r.dangerZone && !r.deadZone
  {
  }

  /**
   * A course without planned classes (the default total when a course is
   * created): nothing is needed, nothing remains, neither warning is raised,
   * yet the percentage stays 0 whatever is attended, so a positive threshold
   * is never reached as a percentage.
   */
  lemma NoPlannedClasses(held: nat, present: nat, requiredPercentage: real, attended: nat)
    ensures var r := Project(0, held, present, requiredPercentage);
      && r.requiredPresent == 0.0 && r.classesNeeded == 0 && r.remainingClasses == 0
      && r.classesCanMiss == 0 && !r.dangerZone && !r.deadZone
      && AttendancePercentage(0, present + attended) == 0.0
      && (requiredPercentage > 0.0 ==> AttendancePercentage(0, present + attended) < requiredPercentage)
  {
  }

  /** 7 planned, 60%: 4.2 presents are required, so 3 presents leave a fractional gap of 1.2 and 2 are needed. */
  lemma ScenarioFractionalGap()
    ensures var r := Project(7, 3, 3, 60.0);
      && r.requiredPresent == 4.2 && r.classesNeeded == 2 && r.remainingClasses == 4
      && r.classesCanMiss == 2 && !r.dangerZone && !r.deadZone
  {
  }
}
