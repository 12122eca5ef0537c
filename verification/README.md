# Course enrolment registry — a Dafny model

This project models the in-memory core of a console course-enrolment system
(`sk.py`). The program keeps two registries:

- **courses**: course id → {name, duration, fees}, all free text;
- **students**: student id → {name, email, enrolled courses, progress}, where
  the enrolled courses map a course id to the course's name *as it was at
  enrolment* (a snapshot), and progress maps a course id to a percentage.

Eight menu options change these registries: add, update and delete a course;
add, update and delete a student; enrol a student in a course; and update a
student's progress in a course. Each first checks that the ids it is given
are (or are not) present. When a check fails, it prints a message and changes
nothing. When every check passes, it changes exactly one entry of one map.

In the model each option is a pure function from the current `State` and the
values the user typed to a `Step`: a `Status` (`Ok`, or `Rejected` with a
`Reason` naming the failure message) and the next state. The progress value
is an `Option<int>`. `None` stands for text that is not an integer.

The invariant `Registry.Inv` spans both registries. For every student, the
courses with a progress entry are exactly the enrolled courses, and every
progress value lies in 0..100. It holds of the empty registries and every
operation keeps it. Referential integrity is *not* part of it. Deleting a
course leaves the enrolments that name it in place, and renaming a course
does not change the names stored at enrolment.

Files:

- `wrappers.dfy`: `Option`.
- `registry.dfy`: the data model, the invariant, the frame predicate
  `OnlyChangesKey`, and the eight operations. Each operation's contract
  states its rejection conditions in the program's order, that a rejection
  is a no-op, and exactly which entry an acceptance changes.
- `registry_proofs.dfy`: invariant preservation, inverses (add/delete,
  update/undo), idempotence, enrolling twice, the exact progress range, the
  snapshot semantics, and the end-to-end session of adding a course and a
  student, enrolling and recording 50%.
- `session.dfy`: the menu as a `Command` datatype (options 1–10), its
  dispatch, and a session as a run of commands, with a loop method that
  computes the run.

## Model

| member | source | states |
|---|---|---|
| `Registry.AddCourse` | sk.py:24-38 | An existing id is rejected (CourseExists) with no change. Otherwise exactly that id is bound to {name, duration, fees}, every other course is unchanged and students are untouched. Accepted iff the id is absent. |
| `Registry.UpdateCourse` | sk.py:48-57 | An absent id is rejected (CourseNotFound) with no change. Otherwise all three fields of that course are overwritten, other courses are unchanged and students are untouched. Accepted iff the id is present. |
| `Registry.DeleteCourse` | sk.py:59-66 | An absent id is rejected (CourseNotFound) with no change. Otherwise exactly that key is removed, other courses are unchanged and the student map is identical, so stale enrolments stay. |
| `Registry.AddStudent` | sk.py:69-83 | A duplicate id is rejected (StudentExists) with no change. Otherwise the student is inserted with empty enrolments and empty progress, other students are unchanged and courses are untouched. |
| `Registry.UpdateStudent` | sk.py:100-108 | An absent id is rejected (StudentNotFound) with no change. Otherwise only name and email change: enrolments, progress, other students and courses stay the same. |
| `Registry.DeleteStudent` | sk.py:110-117 | An absent id is rejected (StudentNotFound) with no change. Otherwise exactly that key is removed and courses are untouched. |
| `Registry.EnrollStudent` | sk.py:120-138 | Rejects, in this order, an absent student, an absent course and an existing enrolment, each with no change. Otherwise it records the course's current name and progress 0 under that course id for that student only. Nothing else in that student's maps changes, and courses are untouched. Accepted iff none of the three conditions holds. |
| `Registry.UpdateProgress` | sk.py:140-160 | Rejects, in this order, an absent student, a course the student is not enrolled in, a non-numeric value and a value outside 0..100, each with no change. Otherwise it sets only that student's progress for that course. Accepted iff all four checks pass. |
| `RegistryProofs.EmptySatisfiesInv` | sk.py:9-21 | With no data files, both registries start empty and the invariant holds. |
| `RegistryProofs.AddStudentPreservesInv` | sk.py:76-81 | A new student starts with empty enrolments and empty progress, so the invariant is kept. |
| `RegistryProofs.UpdateStudentPreservesInv` | sk.py:105-106 | Changing name and email keeps the invariant. |
| `RegistryProofs.DeleteStudentPreservesInv` | sk.py:112-113 | Removing a student keeps the invariant. |
| `RegistryProofs.EnrollPreservesInv` | sk.py:135-136 | Enrolment adds the same course id to the enrolments and to the progress, with progress 0, so both key sets stay equal and in range. |
| `RegistryProofs.UpdateProgressPreservesInv` | sk.py:151-154 | The range check keeps every stored progress value in 0..100, and the progress keys stay equal to the enrolled keys. |
| `RegistryProofs.AddThenDeleteCourse` | sk.py:24-66 | Adding a fresh course and then deleting it restores the original state exactly. |
| `RegistryProofs.DeleteThenRestoreCourse` | sk.py:24-66 | Deleting a course and then re-adding it with its old fields restores the original state exactly. |
| `RegistryProofs.AddThenDeleteStudent` | sk.py:69-117 | Adding a fresh student and then deleting them restores the original state exactly. |
| `RegistryProofs.UpdateCourseUndo` | sk.py:48-57 | An update of a present course is undone by updating it again with its old fields. |
| `RegistryProofs.UpdateCourseIdempotent` | sk.py:48-57 | Repeating the same course update leaves the state as the first one left it. |
| `RegistryProofs.UpdateStudentUndo` | sk.py:100-108 | An update of a present student is undone by writing back the old name and email. |
| `RegistryProofs.UpdateProgressIdempotent` | sk.py:140-160 | Repeating the same progress update leaves the state as the first one left it. |
| `RegistryProofs.EnrollTwiceRejected` | sk.py:131-133 | After a successful enrolment, the same enrolment is rejected (AlreadyEnrolled) with no change. |
| `RegistryProofs.EnrollAddsOneCourse` | sk.py:135-136 | A successful enrolment adds exactly the one course id to the student's enrolments, so their number grows by one. |
| `RegistryProofs.UpdateProgressAcceptsExactlyRange` | sk.py:151-160 | For an enrolled student, a value is accepted iff 0 <= value <= 100. 101 and -1 are rejected as OutOfRange and a non-number as NotANumber, each with no change. |
| `RegistryProofs.RenameKeepsSnapshot` | sk.py:53-55 | Updating a course leaves the course name stored in every enrolment unchanged. |
| `RegistryProofs.DeleteCourseLeavesStaleEnrolment` | sk.py:59-66 | Deleting a course leaves enrolled students' snapshots and progress in place, pointing at a missing course, and the invariant still holds. |
| `RegistryProofs.EndToEndScenario` | sk.py:24-160 | Start empty, add course C1/Math/1yr/100, add student S1/Alice, enrol S1 in C1 and set progress to 50. Every step succeeds, and the result has one course and Alice with {C1: Math} at 50%. |
| `Session.Apply` | sk.py:180-204 | Dispatches options 1–10. Any rejection leaves the state unchanged, and the two listing options change nothing. |
| `Session.ApplyPreservesInv` | sk.py:180-199 | Every menu option keeps the cross-registry invariant. |
| `Session.Run` | sk.py:163-204 | A whole session of menu choices keeps the invariant, by induction over the commands. |
| `Session.Statuses` | sk.py:163-204 | A session reports exactly one status per command. |
| `Session.AllRejectedIsNoOp` | sk.py:163-204 | A session in which every command is rejected ends in the state it began with. |
| `Session.RunSession` | sk.py:163-204 | The menu loop computes the same final state and statuses as `Run`/`Statuses`, and it keeps the invariant from the initial state. |

## Left out

- `load_data` / `save_data` (sk.py:9-21): file existence checks, JSON reading and writing, and whole-file overwrite are I/O. The model starts from the empty registries, which is what loading gives when neither file exists. A data file edited by hand could load a state that breaks the invariant; the model does not cover that.
- Console prompts (`input`) and messages (`print`): the typed values are parameters, and each message is a `Reason`.
- `int()` parsing of the progress text (sk.py:152, sk.py:159): the value arrives already parsed, as `Option<int>`. `None` means the text raised `ValueError`.
- `view_courses` / `view_students` (sk.py:40-46, sk.py:85-98) only print, including insertion order and the `get(cid, 0)` default. They are modelled as commands that change nothing.
- The menu's text handling (sk.py:163-204): matching the typed choice, the "invalid choice" message and option 0 (Exit). A session is the list of choices made before Exit, already parsed into `Command`s.
- Session.Statuses: only its length is stated in its contract. What each status is follows from `Apply`, which `RunSession` is proved to match.
