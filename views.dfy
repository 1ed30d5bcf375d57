/**
 * The two places that show a projection: the dashboard, which builds one entry
 * per enrolled course from the rows of an aggregate query, and the detail page
 * of a single course, which counts its attendance records itself. Both hand
 * their counts to Projector.Project.
 */
module Views {
  import opened Options
  import opened Projector
  import opened Records

  /** The stored setting if there is one, the default otherwise. */
  function RequiredOrDefault(setting: Option<real>): (p: real)
    ensures setting.Some? ==> p == setting.value
    ensures setting.None? ==> p == DefaultRequiredPercentage
  {
    setting.GetOr(DefaultRequiredPercentage)
  }

  // ---------------------------------------------------------------------------
  // Dashboard

  /**
   * One row of the dashboard's aggregate query: the course, its teacher, the
   * threshold already defaulted to 60, and the record counts, which the
   * database may answer as NULL.
   */
  datatype CourseRow = CourseRow(
    courseId: int,
    courseCode: string,
    courseName: string,
    totalClasses: int,
    teacherName: string,
    requiredPercentage: real,
    classesHeld: Option<nat>,
    presentCount: Option<nat>,
    absentCount: Option<nat>)

  /** A dashboard entry: the query row with the projected fields merged onto it. */
  datatype DashboardCourse = DashboardCourse(
    row: CourseRow,
    attendancePercentage: real,
    classesCanMiss: int,
    dangerZone: bool,
    deadZone: bool,
    remainingClasses: int)

  /** The entry the dashboard builds for one row (the body of the loop at app.py:131-166). */
  function DashboardCourseFor(course: CourseRow): (entry: DashboardCourse)
    ensures entry.row == course
    ensures 0 <= entry.classesCanMiss <= entry.remainingClasses
    ensures !(entry.dangerZone && entry.deadZone)
  {
    var r := Project(course.totalClasses, OrZero(course.classesHeld), OrZero(course.presentCount), course.requiredPercentage);
    DashboardCourse(course, r.attendancePercentage, r.classesCanMiss, r.dangerZone, r.deadZone, r.remainingClasses)
  }

  /**
   * The dashboard loop (app.py:130-166): one entry per row, in the rows' order,
   * each consistent: 0 <= can-miss <= remaining, and never both warnings.
   */
  method Dashboard(coursesData: seq<CourseRow>) returns (courses: seq<DashboardCourse>)
    ensures |courses| == |coursesData|
    ensures forall i :: 0 <= i < |coursesData| ==> courses[i] == DashboardCourseFor(coursesData[i])
    ensures forall i :: 0 <= i < |courses| ==>
      && courses[i].row == coursesData[i]
      && 0 <= courses[i].classesCanMiss <= courses[i].remainingClasses
      && courses[i].attendancePercentage >= 0.0
      && !(courses[i].dangerZone && courses[i].deadZone)
  {
    courses := [];
    var k := 0;
    while k < |coursesData|
      invariant 0 <= k <= |coursesData|
      invariant |courses| == k
      invariant forall i :: 0 <= i < k ==> courses[i] == DashboardCourseFor(coursesData[i])
      invariant forall i :: 0 <= i < k ==>
        && 0 <= courses[i].classesCanMiss <= courses[i].remainingClasses
        && courses[i].attendancePercentage >= 0.0
        && !(courses[i].dangerZone && courses[i].deadZone)
    {
      var course := coursesData[k];
      var totalClasses := course.totalClasses;
      var classesHeld := OrZero(course.classesHeld);
      var present := OrZero(course.presentCount);
      var r := Project(totalClasses, classesHeld, present, course.requiredPercentage);
      var courseDict := DashboardCourse(course, r.attendancePercentage, r.classesCanMiss, r.dangerZone, r.deadZone, r.remainingClasses);
      courses := courses + [courseDict];
      k := k + 1;
    }
  }

  // ---------------------------------------------------------------------------
  // Course detail

  /** What the detail page shows besides the records themselves (app.py:243-256). */
  datatype CourseDetail = CourseDetail(
    totalClasses: int,
    classesHeld: nat,
    remainingClasses: int,
    present: nat,
    absent: int,
    currentPercentage: real,
    requiredPercentage: real,
    classesNeeded: int,
    classesCanMiss: int,
    dangerZone: bool,
    deadZone: bool)

  /**
   * The detail page of one course (app.py:205-239): held is the number of
   * records, present the number marked present, absent the rest; when every
   * record is present or absent, that rest is exactly the absent records.
   */
  function CourseDetailFor(totalClasses: int, attendance: seq<AttendanceRecord>, setting: Option<real>): (d: CourseDetail)
    ensures d.classesHeld == |attendance|
    ensures d.present == CountStatus(attendance, PresentStatus) <= d.classesHeld
    ensures 0 <= d.absent == d.classesHeld - d.present
    ensures AllKnown(attendance) ==> d.absent == CountStatus(attendance, AbsentStatus)
    ensures d.requiredPercentage == RequiredOrDefault(setting)
  {
    var requiredPercentage := RequiredOrDefault(setting);
    var classesHeld := |attendance|;
    var present := CountStatus(attendance, PresentStatus);
    var absent := classesHeld - present;
    var r := Project(totalClasses, classesHeld, present, requiredPercentage);
    var d := CourseDetail(
      totalClasses, classesHeld, r.remainingClasses, present, absent, r.attendancePercentage,
      requiredPercentage, r.classesNeeded, r.classesCanMiss, r.dangerZone, r.deadZone);
    if AllKnown(attendance) then AbsentIsHeldMinusPresent(attendance); d else d
  }

  // ---------------------------------------------------------------------------
  // The two views agree

  /**
   * For the same course, a dashboard row whose counts are those of the
   * course's records and whose threshold is the same setting defaulted the
   * same way gets the same projection as the detail page. The absent counts
   * agree too as long as every record is present or absent.
   */
  lemma ViewsAgree(row: CourseRow, attendance: seq<AttendanceRecord>, setting: Option<real>)
    requires OrZero(row.classesHeld) == |attendance|
    requires OrZero(row.presentCount) == CountStatus(attendance, PresentStatus)
    requires row.requiredPercentage == RequiredOrDefault(setting)
    ensures var e := DashboardCourseFor(row);
      var d := CourseDetailFor(row.totalClasses, attendance, setting);
      && e.attendancePercentage == d.currentPercentage
      && e.remainingClasses == d.remainingClasses
      && e.classesCanMiss == d.classesCanMiss
      && e.dangerZone == d.dangerZone
      && e.deadZone == d.deadZone
      && (AllKnown(attendance) && OrZero(row.absentCount) == CountStatus(attendance, AbsentStatus) ==>
            OrZero(row.absentCount) == d.absent)
  {
  }

  /**
   * The detail page's counts fed to the shared projection: its needed count is
   * the least number of further presents that reaches the threshold, and its
   * dead zone is "more needed than remain".
   */
  lemma DetailProjection(totalClasses: int, attendance: seq<AttendanceRecord>, setting: Option<real>)
    ensures var d := CourseDetailFor(totalClasses, attendance, setting);
      var rp := RequiredPresent(d.requiredPercentage, totalClasses);
      && d.classesNeeded == Max(0, Ceil(rp - d.present as real))
      && (d.classesNeeded == 0 <==> d.present as real >= rp)
      && (d.deadZone <==> d.classesNeeded > d.remainingClasses)
      && !(d.dangerZone && d.deadZone)
  {
  }
}
