/**
 The in-memory state of the course enrolment system: a course registry and a
 student registry, and the eight operations of the menu that change them.

 Each operation is a pure function from the current state and the values the
 user typed to a `Step`: a status (what message the program prints) and the
 next state. A rejected operation prints a message and returns without
 touching either map; an accepted one changes exactly one entry of one map.
 */
module Registry {
  import opened Wrappers

  /** Course and student identifiers are free text typed by the user. */
  type Id = string

  /** The inclusive bounds of a progress percentage. */
  const MinProgress: int := 0
  const MaxProgress: int := 100

  /** A course record; duration and fees are free text and are never validated. */
  datatype Course = Course(name: string, duration: string, fees: string)

  /**
   A student record. `enrolled` maps a course id to the course name as it was
   when the student enrolled (a snapshot, not a reference); `progress` maps a
   course id to a percentage.
   */
  datatype Student = Student(
    name: string,
    email: string,
    enrolled: map<Id, string>,
    progress: map<Id, int>)
  {
    /** Progress is recorded for exactly the enrolled courses, each within bounds. */
    ghost predicate WellFormed() {
      && progress.Keys == enrolled.Keys
      && forall c :: c in progress ==> InRange(progress[c])
    }
  }

  datatype State = State(courses: map<Id, Course>, students: map<Id, Student>)

  /** Why an operation was refused; one per failure message of the program. */
  datatype Reason =
    | CourseExists
    | StudentExists
    | CourseNotFound
    | StudentNotFound
    | AlreadyEnrolled
    | NotEnrolled
    | NotANumber
    | OutOfRange

  datatype Status = Ok | Rejected(reason: Reason)

  /** The outcome of one operation together with the state it leaves behind. */
  datatype Step = Step(status: Status, state: State)

  predicate InRange(p: int) {
    MinProgress <= p <= MaxProgress
  }

  /** The cross-registry invariant every operation keeps. */
  ghost predicate Inv(s: State) {
    forall sid :: sid in s.students ==> s.students[sid].WellFormed()
  }

  /** `k` is absent from both maps or maps to the same value in both. */
  ghost predicate EqualOnKey<K, V>(m: map<K, V>, m': map<K, V>, k: K) {
    (k !in m && k !in m') || (k in m && k in m' && m[k] == m'[k])
  }

  /** `m'` agrees with `m` on every key other than `k`. */
  ghost predicate OnlyChangesKey<K(!new), V>(m: map<K, V>, m': map<K, V>, k: K) {
    forall x :: x != k ==> EqualOnKey(m, m', x)
  }

  /** The state at start-up when neither data file exists yet. */
  function Empty(): State {
    State(map[], map[])
  }

  /** Menu option 1: register a new course under a fresh id. */
  function AddCourse(s: State, cid: Id, name: string, duration: string, fees: string): (r: Step)
    ensures r.status == Ok <==> cid !in s.courses
    ensures r.status.Rejected? ==> r.status.reason == CourseExists && r.state == s
    ensures r.status == Ok ==>
              && cid in r.state.courses
              && r.state.courses[cid] == Course(name, duration, fees)
              && OnlyChangesKey(s.courses, r.state.courses, cid)
              && r.state.students == s.students
  {
    if cid in s.courses then
      Step(Rejected(CourseExists), s)
    else
      Step(Ok, s.(courses := s.courses[cid := Course(name, duration, fees)]))
  }

  /** Menu option 3: overwrite name, duration and fees of an existing course. */
  function UpdateCourse(s: State, cid: Id, name: string, duration: string, fees: string): (r: Step)
    ensures r.status == Ok <==> cid in s.courses
    ensures r.status.Rejected? ==> r.status.reason == CourseNotFound && r.state == s
    ensures r.status == Ok ==>
              && cid in r.state.courses
              && r.state.courses[cid] == Course(name, duration, fees)
              && OnlyChangesKey(s.courses, r.state.courses, cid)
              && r.state.students == s.students
  {
    if cid !in s.courses then
      Step(Rejected(CourseNotFound), s)
    else
      Step(Ok, s.(courses := s.courses[cid := Course(name, duration, fees)]))
  }

  /**
   Menu option 4: remove a course. Students enrolled in it keep their
   enrolment snapshot and progress entry.
   */
  function DeleteCourse(s: State, cid: Id): (r: Step)
    ensures r.status == Ok <==> cid in s.courses
    ensures r.status.Rejected? ==> r.status.reason == CourseNotFound && r.state == s
    ensures r.status == Ok ==>
              && cid !in r.state.courses
              && OnlyChangesKey(s.courses, r.state.courses, cid)
              && r.state.students == s.students
  {
    if cid in s.courses then
      Step(Ok, s.(courses := s.courses - {cid}))
    else
      Step(Rejected(CourseNotFound), s)
  }

  /** Menu option 5: register a new student with no enrolments. */
  function AddStudent(s: State, sid: Id, name: string, email: string): (r: Step)
    ensures r.status == Ok <==> sid !in s.students
    ensures r.status.Rejected? ==> r.status.reason == StudentExists && r.state == s
    ensures r.status == Ok ==>
              && sid in r.state.students
              && r.state.students[sid] == Student(name, email, map[], map[])
              && OnlyChangesKey(s.students, r.state.students, sid)
              && r.state.courses == s.courses
  {
    if sid in s.students then
      Step(Rejected(StudentExists), s)
    else
      Step(Ok, s.(students := s.students[sid := Student(name, email, map[], map[])]))
  }

  /** Menu option 7: change a student's name and email, keeping enrolments and progress. */
  function UpdateStudent(s: State, sid: Id, name: string, email: string): (r: Step)
    ensures r.status == Ok <==> sid in s.students
    ensures r.status.Rejected? ==> r.status.reason == StudentNotFound && r.state == s
    ensures r.status == Ok ==>
              && sid in r.state.students
              && r.state.students[sid].name == name
              && r.state.students[sid].email == email
              && r.state.students[sid].enrolled == s.students[sid].enrolled
              && r.state.students[sid].progress == s.students[sid].progress
              && OnlyChangesKey(s.students, r.state.students, sid)
              && r.state.courses == s.courses
  {
    if sid !in s.students then
      Step(Rejected(StudentNotFound), s)
    else
      var st := s.students[sid];
      Step(Ok, s.(students := s.students[sid := st.(name := name, email := email)]))
  }

  /** Menu option 8: remove a student together with their enrolments. */
  function DeleteStudent(s: State, sid: Id): (r: Step)
    ensures r.status == Ok <==> sid in s.students
    ensures r.status.Rejected? ==> r.status.reason == StudentNotFound && r.state == s
    ensures r.status == Ok ==>
              && sid !in r.state.students
              && OnlyChangesKey(s.students, r.state.students, sid)
              && r.state.courses == s.courses
  {
    if sid in s.students then
      Step(Ok, s.(students := s.students - {sid}))
    else
      Step(Rejected(StudentNotFound), s)
  }

  /**
   Menu option 9: enrol an existing student in an existing course, recording
   the course's current name and a progress of zero. Checks are made in the
   program's order: the student, then the course, then a duplicate enrolment.
   */
  function EnrollStudent(s: State, sid: Id, cid: Id): (r: Step)
    ensures r.status == Ok <==>
              sid in s.students && cid in s.courses && cid !in s.students[sid].enrolled
    ensures sid !in s.students ==> r.status == Rejected(StudentNotFound)
    ensures sid in s.students && cid !in s.courses ==> r.status == Rejected(CourseNotFound)
    ensures sid in s.students && cid in s.courses && cid in s.students[sid].enrolled ==>
              r.status == Rejected(AlreadyEnrolled)
    ensures r.status.Rejected? ==> r.state == s
    ensures r.status == Ok ==>
              && r.state.courses == s.courses
              && OnlyChangesKey(s.students, r.state.students, sid)
              && sid in r.state.students
              && r.state.students[sid].name == s.students[sid].name
              && r.state.students[sid].email == s.students[sid].email
              && cid in r.state.students[sid].enrolled
              && r.state.students[sid].enrolled[cid] == s.courses[cid].name
              && OnlyChangesKey(s.students[sid].enrolled, r.state.students[sid].enrolled, cid)
              && cid in r.state.students[sid].progress
              && r.state.students[sid].progress[cid] == 0
              && OnlyChangesKey(s.students[sid].progress, r.state.students[sid].progress, cid)
  {
    if sid !in s.students then
      Step(Rejected(StudentNotFound), s)
    else if cid !in s.courses then
      Step(Rejected(CourseNotFound), s)
    else
      var st := s.students[sid];
      if cid in st.enrolled then
        Step(Rejected(AlreadyEnrolled), s)
      else
        var st' := st.(enrolled := st.enrolled[cid := s.courses[cid].name],
                       progress := st.progress[cid := 0]);
        Step(Ok, s.(students := s.students[sid := st']))
  }

  /**
   Menu option 10: set the progress of an enrolled student in one course.
   `value` is `None` when the typed text is not an integer. Checks are made in
   the program's order: the student, the enrolment, the number, the range.
   */
  function UpdateProgress(s: State, sid: Id, cid: Id, value: Option<int>): (r: Step)
    ensures r.status == Ok <==>
              && sid in s.students
              && cid in s.students[sid].enrolled
              && value.Some?
              && InRange(value.value)
    ensures sid !in s.students ==> r.status == Rejected(StudentNotFound)
    ensures sid in s.students && cid !in s.students[sid].enrolled ==>
              r.status == Rejected(NotEnrolled)
    ensures sid in s.students && cid in s.students[sid].enrolled && value.None? ==>
              r.status == Rejected(NotANumber)
    ensures sid in s.students && cid in s.students[sid].enrolled && value.Some?
            && !InRange(value.value) ==>
              r.status == Rejected(OutOfRange)
    ensures r.status.Rejected? ==> r.state == s
    ensures r.status == Ok ==>
              && r.state.courses == s.courses
              && OnlyChangesKey(s.students, r.state.students, sid)
              && sid in r.state.students
              && r.state.students[sid].name == s.students[sid].name
              && r.state.students[sid].email == s.students[sid].email
              && r.state.students[sid].enrolled == s.students[sid].enrolled
              && cid in r.state.students[sid].progress
              && r.state.students[sid].progress[cid] == value.value
              && OnlyChangesKey(s.students[sid].progress, r.state.students[sid].progress, cid)
  {
    if sid !in s.students then
      Step(Rejected(StudentNotFound), s)
    else
      var st := s.students[sid];
      if cid !in st.enrolled then
        Step(Rejected(NotEnrolled), s)
      else
        match value
        case None => Step(Rejected(NotANumber), s)
        case Some(p) =>
          if InRange(p) then
            Step(Ok, s.(students := s.students[sid := st.(progress := st.progress[cid := p])]))
          else
            Step(Rejected(OutOfRange), s)
  }
}
