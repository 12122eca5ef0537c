/**
 Properties of the registry operations that relate several calls, or that
 relate an operation to the cross-registry invariant.
 */
module RegistryProofs {
  import opened Wrappers
  import opened Registry

  /** Both registries start empty, and the invariant holds there. */
  lemma EmptySatisfiesInv()
    ensures Inv(Empty())
    ensures Empty().courses == map[] && Empty().students == map[]
  {
  }

  // ---------------------------------------------------------------------------
  // Invariant preservation, one lemma per operation that touches students.
  // Course operations leave the student map as it was (see their contracts).
  // ---------------------------------------------------------------------------

  lemma AddStudentPreservesInv(s: State, sid: Id, name: string, email: string)
    requires Inv(s)
    ensures Inv(AddStudent(s, sid, name, email).state)
  {
  }

  lemma UpdateStudentPreservesInv(s: State, sid: Id, name: string, email: string)
    requires Inv(s)
    ensures Inv(UpdateStudent(s, sid, name, email).state)
  {
  }

  lemma DeleteStudentPreservesInv(s: State, sid: Id)
    requires Inv(s)
    ensures Inv(DeleteStudent(s, sid).state)
  {
  }

  /** Enrolment adds the same key to both the snapshot map and the progress map, with progress 0. */
  lemma EnrollPreservesInv(s: State, sid: Id, cid: Id)
    requires Inv(s)
    ensures Inv(EnrollStudent(s, sid, cid).state)
  {
  }

  /** The range check is what keeps every stored progress value within bounds. */
  lemma UpdateProgressPreservesInv(s: State, sid: Id, cid: Id, value: Option<int>)
    requires Inv(s)
    ensures Inv(UpdateProgress(s, sid, cid, value).state)
  {
  }

  // ---------------------------------------------------------------------------
  // Inverses and idempotence.
  // ---------------------------------------------------------------------------

  /** Deleting a course that was just added restores the previous state. */
  lemma AddThenDeleteCourse(s: State, cid: Id, name: string, duration: string, fees: string)
    requires cid !in s.courses
    ensures AddCourse(s, cid, name, duration, fees).status == Ok
    ensures DeleteCourse(AddCourse(s, cid, name, duration, fees).state, cid) == Step(Ok, s)
  {
  }

  /** Re-adding a deleted course with its old fields restores the previous state. */
  lemma DeleteThenRestoreCourse(s: State, cid: Id)
    requires cid in s.courses
    ensures var c := s.courses[cid];
            var deleted := DeleteCourse(s, cid);
            deleted.status == Ok &&
            AddCourse(deleted.state, cid, c.name, c.duration, c.fees) == Step(Ok, s)
  {
  }

  /** Deleting a student that was just added restores the previous state. */
  lemma AddThenDeleteStudent(s: State, sid: Id, name: string, email: string)
    requires sid !in s.students
    ensures AddStudent(s, sid, name, email).status == Ok
    ensures DeleteStudent(AddStudent(s, sid, name, email).state, sid) == Step(Ok, s)
  {
  }

  /** An update of a course is undone by updating it again with its old fields. */
  lemma UpdateCourseUndo(s: State, cid: Id, name: string, duration: string, fees: string)
    requires cid in s.courses
    ensures var c := s.courses[cid];
            var u := UpdateCourse(s, cid, name, duration, fees);
            u.status == Ok &&
            UpdateCourse(u.state, cid, c.name, c.duration, c.fees) == Step(Ok, s)
  {
  }

  /** Repeating an update of a course changes nothing further. */
  lemma UpdateCourseIdempotent(s: State, cid: Id, name: string, duration: string, fees: string)
    ensures var u := UpdateCourse(s, cid, name, duration, fees);
            UpdateCourse(u.state, cid, name, duration, fees).state == u.state
  {
  }

  /** An update of a student's contact details is undone by writing back the old ones. */
  lemma UpdateStudentUndo(s: State, sid: Id, name: string, email: string)
    requires sid in s.students
    ensures var st := s.students[sid];
            var u := UpdateStudent(s, sid, name, email);
            u.status == Ok &&
            UpdateStudent(u.state, sid, st.name, st.email) == Step(Ok, s)
  {
  }

  /** Repeating a progress update changes nothing further. */
  lemma UpdateProgressIdempotent(s: State, sid: Id, cid: Id, value: Option<int>)
    ensures var u := UpdateProgress(s, sid, cid, value);
            UpdateProgress(u.state, sid, cid, value).state == u.state
  {
    var u := UpdateProgress(s, sid, cid, value);
    if u.status == Ok {
      var st := u.state.students[sid];
      assert st.progress[cid := value.value] == st.progress;
      assert u.state.students[sid := st.(progress := st.progress[cid := value.value])]
          == u.state.students;
    }
  }

  // ---------------------------------------------------------------------------
  // Enrolment.
  // ---------------------------------------------------------------------------

  /** A second enrolment in the same course is refused and changes nothing. */
  lemma EnrollTwiceRejected(s: State, sid: Id, cid: Id)
    requires EnrollStudent(s, sid, cid).status == Ok
    ensures var once := EnrollStudent(s, sid, cid).state;
            EnrollStudent(once, sid, cid) == Step(Rejected(AlreadyEnrolled), once)
  {
  }

  /** A successful enrolment adds exactly one course to the student's enrolments. */
  lemma EnrollAddsOneCourse(s: State, sid: Id, cid: Id)
    requires EnrollStudent(s, sid, cid).status == Ok
    ensures var before, after := s.students[sid], EnrollStudent(s, sid, cid).state.students[sid];
            && after.enrolled.Keys == before.enrolled.Keys + {cid}
            && |after.enrolled| == |before.enrolled| + 1
  {
  }

  /**
   Progress updates accept exactly the integers 0 through 100 for an enrolled
   student; 101, -1 and non-numeric input are refused.
   */
  lemma UpdateProgressAcceptsExactlyRange(s: State, sid: Id, cid: Id, p: int)
    requires sid in s.students && cid in s.students[sid].enrolled
    ensures UpdateProgress(s, sid, cid, Some(p)).status == Ok <==> 0 <= p <= 100
    ensures UpdateProgress(s, sid, cid, Some(101)) == Step(Rejected(OutOfRange), s)
    ensures UpdateProgress(s, sid, cid, Some(-1)) == Step(Rejected(OutOfRange), s)
    ensures UpdateProgress(s, sid, cid, None) == Step(Rejected(NotANumber), s)
  {
  }

  // ---------------------------------------------------------------------------
  // Snapshots: the name stored at enrolment does not follow the course.
  // ---------------------------------------------------------------------------

  /** Renaming a course leaves every student's stored course name as it was. */
  lemma RenameKeepsSnapshot(s: State, cid: Id, name: string, duration: string, fees: string, sid: Id)
    requires sid in s.students && cid in s.students[sid].enrolled
    ensures var u := UpdateCourse(s, cid, name, duration, fees).state;
            sid in u.students && u.students[sid].enrolled[cid] == s.students[sid].enrolled[cid]
  {
  }

  /**
   Deleting a course does not remove it from the students enrolled in it: the
   enrolment and its progress survive, pointing at a course that no longer
   exists, and the invariant still holds.
   */
  lemma DeleteCourseLeavesStaleEnrolment(s: State, cid: Id, sid: Id)
    requires Inv(s)
    requires cid in s.courses && sid in s.students && cid in s.students[sid].enrolled
    ensures var d := DeleteCourse(s, cid).state;
            && cid !in d.courses
            && sid in d.students
            && cid in d.students[sid].enrolled
            && cid in d.students[sid].progress
            && Inv(d)
  {
  }

  /** The end-to-end session: add a course and a student, enrol, record 50%. */
  lemma EndToEndScenario()
    ensures var s1 := AddCourse(Empty(), "C1", "Math", "1yr", "100");
            var s2 := AddStudent(s1.state, "S1", "Alice", "a@x.com");
            var s3 := EnrollStudent(s2.state, "S1", "C1");
            var s4 := UpdateProgress(s3.state, "S1", "C1", Some(50));
            && s1.status == Ok && s2.status == Ok && s3.status == Ok && s4.status == Ok
            && s4.state.courses == map["C1" := Course("Math", "1yr", "100")]
            && s4.state.students == map["S1" := Student("Alice", "a@x.com",
                                                         map["C1" := "Math"],
                                                         map["C1" := 50])]
  {
    var s1 := AddCourse(Empty(), "C1", "Math", "1yr", "100");
    assert s1.state == State(map["C1" := Course("Math", "1yr", "100")], map[]);
    var s2 := AddStudent(s1.state, "S1", "Alice", "a@x.com");
    assert s2.state.students == map["S1" := Student("Alice", "a@x.com", map[], map[])];
    var s3 := EnrollStudent(s2.state, "S1", "C1");
    assert s3.state.students
        == map["S1" := Student("Alice", "a@x.com", map["C1" := "Math"], map["C1" := 0])];
    var s4 := UpdateProgress(s3.state, "S1", "C1", Some(50));
    assert s4.status == Ok;
    assert map["C1" := 0]["C1" := 50] == map["C1" := 50];
    assert s4.state.courses == map["C1" := Course("Math", "1yr", "100")];
    assert s4.state.students
        == map["S1" := Student("Alice", "a@x.com", map["C1" := "Math"], map["C1" := 50])];
  }
}
