# Attendance projection, modelled in Dafny

SixtyPercent is a personal attendance tracker in which each user sees only
their own courses. For each enrolled course, it compares how many classes were
attended with a required percentage and projects forward:
- the current percentage, measured against the total number of *planned* classes;
- how many more presents are needed;
- how many classes remain;
- how many of them may still be missed;
- two warnings, the *danger zone* (no remaining class may be missed) and the
  *dead zone* (the target is out of reach).

In `app.py` this arithmetic appears twice, once in the dashboard and once in the
course-detail page. Here it is written once, as `Projector.Project`, and both
views call it.

The write path is modelled too, because it establishes `held <= total`. The
calculator takes that for granted. The write path is the form-based
`mark_attendance` and the dashboard's `quick_mark_attendance`. They append one
attendance record to an enrollment, and they refuse to once every planned class
has a record.

Modules:
- `Options`: optional values, and Python's `x or 0` on a NULL-able count.
- `Projector`: the calculator, as pure functions over integer counts and an
  exact `real` threshold, with the lemmas about it.
- `Records`: attendance records and the counts taken from them.
- `Views`: the dashboard loop (a method), the detail page (a function over the
  record list), and the lemma that the two agree.
- `Marking`: class `Enrollment`, a record sequence mutated by `Mark` and
  `QuickMark`, with the invariant `Valid()` (`|records| <= totalClasses`).

Three facts about the code shape the model:
- Nothing checks the calculator's inputs: course creation and editing store any
  total and any threshold (app.py:451-456, app.py:637-654). So the total is an
  `int` and the threshold is any `real`. Every report field is still defined,
  and the `max(0, …)` clamps are proved to hold.
- The dashboard and the detail page compute the same projection
  (`Views.ViewsAgree`), but their absent counts can differ. The form handler
  stores any status, the detail page counts every non-present record as absent,
  and the dashboard's query counts only `'absent'` rows. The two counts agree
  when every record is present or absent. `Records.OtherStatusIsNotAbsent`
  exhibits a record for which they differ.
- `ViewsAgree` assumes the database compares statuses exactly, as Python's `==`
  does (app.py:210). The schema is not part of this model. Under a
  case-insensitive or pad-space collation, a stored `'Present'` or `'present '`
  would count as present on the dashboard (app.py:115) but not on the detail
  page, so the present counts would differ too.

A course created without a total has 0 planned classes (app.py:451). Its
percentage is then 0, and neither warning is raised. No attendance raises the
percentage, so a positive threshold can never be reached
(`Projector.NoPlannedClasses`).

Inputs that come from outside are parameters:
- the database's answers: the dashboard rows, the record list, the stored
  setting, and whether an INSERT succeeds;
- today's date for quick-mark.

## Model

| member | source | states |
|---|---|---|
| `Projector.AttendancePercentage` | app.py:139 | definition of the current percentage against the planned total; it is never negative and is 0 without planned classes |
| `Projector.RequiredPresent` | app.py:142 | definition of the presents the whole course calls for; with planned classes and a threshold in [0, 100] it lies between 0 and the total |
| `Projector.ClassesNeeded` | app.py:143 | definition of the needed count as the source writes it; it is never negative and reaches the required presents |
| `Projector.Project` | app.py:139-156 | definition of the shared projection, also at app.py:214-239; remaining, needed and can-miss are never negative, can-miss never exceeds remaining, and the two warnings exclude each other; the lemma rows below state the rest |
| `Views.DashboardCourseFor` | app.py:132-164 | definition of one dashboard entry: the query row with the shared projection merged onto it, with `0 <= can_miss <= remaining` and not both warnings |
| `Options.OrZero` | app.py:133-135 | a NULL count reads as 0, a present count as itself |
| `Projector.Trunc` | app.py:143 | Python's `int()` truncates toward zero: the result is within one of `x` on the side toward zero |
| `Projector.PercentageBounds` | app.py:139 | the current percentage is never negative, is 0 when there are no planned classes, is 0 with planned classes exactly when nothing was attended, and is at most 100 while presents do not exceed the total |
| `Projector.PercentageReachedIff` | app.py:216-219 | with planned classes, reaching the required percentage is the same as reaching `required_present` presents |
| `Projector.TruncPlusFractionIsCeil` | app.py:143 | `int(x) + (1 if x > int(x) else 0)` equals the mathematical ceiling of `x`, for negative `x` too |
| `Projector.NeededIsClampedCeil` | app.py:142-143 | `classes_needed == max(0, ceil(required_present - present))` |
| `Projector.NeededIsLeast` | app.py:216-220 | `classes_needed` is the least n >= 0 for which `present + n >= required_present` |
| `Projector.NeededZeroIff` | app.py:143 | no class is needed exactly when `present >= required_present` |
| `Projector.RemainingClasses` | app.py:148 | remaining classes are never negative; they equal `total - held` when held <= total and 0 when held >= total |
| `Projector.CanMissBounds` | app.py:149-152 | `0 <= classes_can_miss <= remaining`; all remaining classes can be missed when none are needed; in every case `classes_can_miss == max(0, remaining - needed)` |
| `Projector.CanMissIsMostThatCanBeMissed` | app.py:145-152 | outside the dead zone, missing `classes_can_miss` classes still reaches the required presents, and missing one more does not |
| `Projector.DeadZoneIff` | app.py:156 | dead zone holds exactly when more classes are needed than remain |
| `Projector.DangerZoneIff` | app.py:155 | danger zone holds exactly when classes remain, none can be missed, and the target is still reachable |
| `Projector.ZonesExclusive` | app.py:155-156 | danger zone and dead zone are never both true |
| `Projector.DeadZoneIsHopeless` | app.py:237-239 | with planned classes (total > 0): in the dead zone, attending any number of the remaining classes leaves the percentage below the requirement; outside it, attending all of them reaches it |
| `Projector.ScenarioOnTrack` | app.py:139-156 | (30, 10, 8, 60%): 18 required, 10 needed, 20 remaining, 10 can be missed, no warning |
| `Projector.ScenarioLost` | app.py:139-156 | (30, 25, 12, 60%): 6 needed, only 5 remaining, 0 can be missed, dead zone but not danger zone |
| `Projector.ScenarioDanger` | app.py:139-156 | (10, 5, 5, 100%): 5 needed, 5 remaining, 0 can be missed, danger zone |
| `Projector.ScenarioEmptyCourse` | app.py:139-156 | (0, 0, 0, 60%): every field is zero and neither warning is raised |
| `Projector.ScenarioCourseOver` | app.py:139-156 | (20, 20, 15, 60%): 12 required, the course is over with the target met: 0 needed, 0 remaining, 0 can be missed, no warning |
| `Projector.NoPlannedClasses` | app.py:139-156 | with 0 planned classes: 0 required, 0 needed, 0 remaining, 0 can be missed, no warning, and the percentage stays 0 whatever is attended, so a positive threshold is never reached |
| `Projector.ScenarioFractionalGap` | app.py:142-143 | (7, 3, 3, 60%): 4.2 required, so a gap of 1.2 rounds up to 2 needed |
| `Records.CountStatus` | app.py:210 | the number of records with a given status never exceeds the number of records |
| `Records.CountAppend` | app.py:210 | appending a record raises its own status's count by one and leaves the other counts unchanged |
| `Records.AbsentIsHeldMinusPresent` | app.py:209-211 | when every status is present or absent, `held - present` is the number of absent records |
| `Records.OtherStatusIsNotAbsent` | app.py:211 | a record with another status (`"late"`) is counted neither present nor absent, yet `held - present` counts it as absent |
| `Views.RequiredOrDefault` | app.py:205 | the stored setting if there is one, otherwise 60 |
| `Views.Dashboard` | app.py:130-166 | one entry per course row, in order, each entry the row's projection; every entry has `0 <= can_miss <= remaining`, a non-negative percentage, and not both warnings |
| `Views.CourseDetailFor` | app.py:205-239 | held is the number of records, present the number of present records (at most held), absent is `held - present >= 0` and equals the absent records when all statuses are known; the threshold is the setting or 60 |
| `Views.ViewsAgree` | app.py:209-239 | for the same counts and the same defaulted threshold, the dashboard entry and the detail page report the same percentage, remaining, can-miss and both warnings; their absent counts agree when every status is known |
| `Views.DetailProjection` | app.py:219-239 | on the detail page, needed is the clamped ceiling of the gap, is 0 exactly when the target is reached, the dead zone is "needed > remaining", and the warnings exclude each other |
| `Marking.Enrollment.constructor` | app.py:279-283 | an enrollment with the given planned total and its stored records |
| `Marking.Enrollment.Standing` | app.py:148 | under `held <= total`: remaining is exactly `total - held`, the percentage is in [0, 100], `0 <= can_miss <= total - held`, and the warnings exclude each other |
| `Marking.Enrollment.Mark` | app.py:286-307 | refused, with the records unchanged, when `held >= total`; otherwise exactly one record is appended, unless the insert fails; `held <= total` is preserved |
| `Marking.Enrollment.QuickMark` | app.py:335-386 | a status other than present/absent is refused first, with the records unchanged; otherwise the same guard as `Mark`, with today's date and fixed notes; it preserves `held <= total` and "every status is known" |
| `Marking.NegativeTotalCourse` | app.py:294-297 | a course stored with a negative total starts outside `held <= total`, and the guard refuses its first mark with the counts 0 and -1 |
| `Marking.FillCourse` | app.py:294-297 | on a two-class course, three form marks and two quick marks store exactly two records, and nothing remains to be held |

## Left out

- Routing, sessions, login and password hashing: web and authentication plumbing.
- The SQL queries themselves, commits and rollbacks. The model takes the counts and records they deliver as inputs. It also does not model the lookups that can find nothing: the write handlers' enrollment query with its "Enrollment not found" path, and the detail page's course query, which flashes "Course not found." and redirects to the dashboard (app.py:187-189). `Views.CourseDetailFor` starts from a course that was found.
- Sorting records by date in the database: ordering does not affect any count.
- `round(…, 2)` on the displayed percentage, and float versus Decimal arithmetic. The threshold and the percentage are exact `real`s.
- Flash messages and template rendering. `MarkOutcome` stands in for the flash that a request ends with.
- Teacher and course CRUD, including the teacher-delete check: database lookups, not computation.
- `edit_attendance` and `delete_attendance` (app.py:391-417), and course edits (app.py:637-647): unchecked database updates.
  - Editing a record changes only its status and notes, so `Valid()` still holds, but the new status is not checked, so edits can break `AllKnown`.
  - Deleting a record only lowers the count, so `Valid()` still holds.
  - `Valid()` fails for a course created or edited with a negative total (app.py:451, app.py:637), and for a course edited to a total below its record count (app.py:640-647). Under a negative total, the guard refuses every mark (`Marking.NegativeTotalCourse`), so `held <= total` is never established.
- The commented-out handlers at the end of `app.py`: they are not live code.
- Concurrency: two simultaneous requests could both pass the count check. The model treats each request as atomic.
