/**
 The menu: each numbered option becomes a command, and a session is the
 sequence of commands chosen before "0. Exit". Console prompts are replaced by
 the values a command carries; the two listing options print and change
 nothing.
 */
module Session {
  import opened Wrappers
  import R = Registry

  /** One menu choice with the values typed at its prompts, numbered as in the menu. */
  datatype Command =
    | AddCourse(cid: R.Id, name: string, duration: string, fees: string)   // 1
    | ViewCourses                                                          // 2
    | UpdateCourse(cid: R.Id, name: string, duration: string, fees: string)  // 3
    | DeleteCourse(cid: R.Id)                                              // 4
    | AddStudent(sid: R.Id, name: string, email: string)                   // 5
    | ViewStudents                                                         // 6
    | UpdateStudent(sid: R.Id, name: string, email: string)                // 7
    | DeleteStudent(sid: R.Id)                                             // 8
    | Enroll(sid: R.Id, cid: R.Id)                                         // 9
    | UpdateProgress(sid: R.Id, cid: R.Id, value: Option<int>)             // 10

  /** Dispatches one menu choice. Whatever the command, a refusal leaves the state as it was. */
  function Apply(s: R.State, c: Command): (r: R.Step)
    ensures r.status.Rejected? ==> r.state == s
    ensures c.ViewCourses? || c.ViewStudents? ==> r == R.Step(R.Ok, s)
  {
    match c
    case AddCourse(cid, name, duration, fees) => R.AddCourse(s, cid, name, duration, fees)
    case ViewCourses => R.Step(R.Ok, s)
    case UpdateCourse(cid, name, duration, fees) => R.UpdateCourse(s, cid, name, duration, fees)
    case DeleteCourse(cid) => R.DeleteCourse(s, cid)
    case AddStudent(sid, name, email) => R.AddStudent(s, sid, name, email)
    case ViewStudents => R.Step(R.Ok, s)
    case UpdateStudent(sid, name, email) => R.UpdateStudent(s, sid, name, email)
    case DeleteStudent(sid) => R.DeleteStudent(s, sid)
    case Enroll(sid, cid) => R.EnrollStudent(s, sid, cid)
    case UpdateProgress(sid, cid, value) => R.UpdateProgress(s, sid, cid, value)
  }

  /** Every menu choice keeps the cross-registry invariant. */
  lemma ApplyPreservesInv(s: R.State, c: Command)
    ensures R.Inv(s) ==> R.Inv(Apply(s, c).state)
  {
  }

  /** The state after running every command of a session in order. */
  function Run(s: R.State, cmds: seq<Command>): (r: R.State)
    ensures R.Inv(s) ==> R.Inv(r)
    decreases |cmds|
  {
    if cmds == [] then s
    else
      ApplyPreservesInv(s, cmds[0]);
      Run(Apply(s, cmds[0]).state, cmds[1..])
  }

  /** The status reported for each command of a session, in order. */
  function Statuses(s: R.State, cmds: seq<Command>): (r: seq<R.Status>)
    ensures |r| == |cmds|
    decreases |cmds|
  {
    if cmds == [] then [] else [Apply(s, cmds[0]).status] + Statuses(Apply(s, cmds[0]).state, cmds[1..])
  }

  /** A session in which every command is refused ends in the state it began with. */
  lemma {:induction false} AllRejectedIsNoOp(s: R.State, cmds: seq<Command>)
    requires forall i | 0 <= i < |cmds| :: Statuses(s, cmds)[i].Rejected?
    ensures Run(s, cmds) == s
    decreases |cmds|
  {
    if cmds != [] {
      assert Statuses(s, cmds)[0].Rejected?;
      assert forall i | 0 <= i < |cmds| - 1 :: Statuses(s, cmds[1..])[i] == Statuses(s, cmds)[i + 1];
      AllRejectedIsNoOp(s, cmds[1..]);
    }
  }

  /**
   The menu loop: runs the commands one at a time, collecting the status of
   each, and ends in the state `Run` describes. A session that starts from a
   state satisfying the invariant (the empty registries, in particular) ends
   in one.
   */
  method RunSession(init: R.State, cmds: seq<Command>) returns (final: R.State, statuses: seq<R.Status>)
    ensures final == Run(init, cmds)
    ensures statuses == Statuses(init, cmds)
    ensures R.Inv(init) ==> R.Inv(final)
  {
    final, statuses := init, [];
    var i := 0;
    while i < |cmds|
      invariant 0 <= i <= |cmds|
      invariant Run(final, cmds[i..]) == Run(init, cmds)
      invariant statuses + Statuses(final, cmds[i..]) == Statuses(init, cmds)
    {
      assert cmds[i..][1..] == cmds[i + 1..];
      var step := Apply(final, cmds[i]);
      statuses := statuses + [step.status];
      final := step.state;
      i := i + 1;
    }
    assert cmds[i..] == [];
  }
}
