/** The server actions of lib/actions.ts that carry business rules, run
    against the in-memory store. Every action answers with a reply; an
    exception inside an action (reading a property of a user that was not
    found) is caught and answered with the generic error. Fresh ids, the clock
    and `Math.random` are parameters. */
module Actions {
  import opened Common
  import opened Schema
  import opened Text
  import opened Store

  /** What an action returns: `{ success: false, error }` or one of the success shapes. */
  datatype Reply =
    | Failed(error: string)
    | LoggedIn(role: string)
    | Done
    | ClassCreated(classId: string, classCode: string)
    | ClassJoined(classId: string)
    | AttendanceCreated(attendanceId: string)

  const InvalidCredentials := "Invalid username or password"
  const UsernameTaken := "Username already exists"
  const EmailTaken := "Email already exists"
  const AlreadyHasClass := "You already have an active class"
  const AlreadyJoined := "You already joined a class"
  const InvalidClassCode := "Invalid class code"
  const Unexpected := "An unexpected error occurred"

  /** No two users share an id (ids are fresh UUIDs). */
  predicate UniqueIds(users: seq<User>)
  {
    forall i, j :: 0 <= i < j < |users| ==> users[i].id != users[j].id
  }

  // ------------------------------------------------------------------
  // login
  // ------------------------------------------------------------------

  /** The reply of `login`: an unknown user and a wrong password get the same
      error text, so the reply does not tell which check failed. */
  function LoginReply(users: seq<User>, username: string, password: string): (r: Reply)
    ensures r.LoggedIn? || r == Failed(InvalidCredentials)
    ensures UserByUsername(users, username).None? ==> r == Failed(InvalidCredentials)
    ensures r.LoggedIn? ==> UserByUsername(users, username).Some? && r.role == UserByUsername(users, username).value.role
  {
    match UserByUsername(users, username)
    case None => Failed(InvalidCredentials)
    case Some(u) => if VerifyPassword(users, u.id, password) then LoggedIn(u.role) else Failed(InvalidCredentials)
  }

  /** With unique ids, login succeeds exactly when the first user with that
      username has that password. */
  lemma LoginSucceedsIff(users: seq<User>, username: string, password: string)
    requires UniqueIds(users)
    ensures LoginReply(users, username, password).LoggedIn? <==>
      exists i :: 0 <= i < |users| && users[i].username == username && users[i].password == password
                  && forall j :: 0 <= j < i ==> users[j].username != username
  {
    var byName := (u: User) => u.username == username;
    var i := FindIndex(users, byName);
    if i >= 0 {
      var u := users[i];
      assert UserByUsername(users, username) == Some(u);
      var k := FindIndex(users, HasId(u.id));
      assert HasId(u.id)(users[i]);
      assert k == i;
      if LoginReply(users, username, password).LoggedIn? {
        assert users[i].password == password;
      }
    } else {
      assert UserByUsername(users, username).None?;
    }
  }

  /** `login`: on success one session for the user is appended. */
  method Login(db: Database, username: string, password: string, sessionId: string, now: Timestamp) returns (reply: Reply)
    modifies db`sessions
    ensures reply == LoginReply(db.users, username, password)
    ensures reply.LoggedIn? ==>
      db.sessions == old(db.sessions) + [Session(sessionId, UserByUsername(db.users, username).value.id, now)]
    ensures !reply.LoggedIn? ==> db.sessions == old(db.sessions)
  {
    reply := LoginReply(db.users, username, password);
    if reply.LoggedIn? {
      var user := UserByUsername(db.users, username).value;
      var _ := db.CreateSession(Session(sessionId, user.id, now));
    }
  }

  // ------------------------------------------------------------------
  // register
  // ------------------------------------------------------------------

  datatype Registration = Registration(username: string, password: string, fullName: string, email: string, role: string)

  /** The user `register` creates: no class. */
  function RegisteredUser(data: Registration): NewUser
  {
    NewUser(data.username, data.password, data.fullName, data.email, data.role, None)
  }

  /** The username is checked before the email. */
  function RegisterReply(users: seq<User>, data: Registration): (r: Reply)
    ensures r == Done || r == Failed(UsernameTaken) || r == Failed(EmailTaken)
    ensures r == Failed(UsernameTaken) <==> exists u :: u in users && u.username == data.username
    ensures r == Failed(EmailTaken) <==>
      (forall u :: u in users ==> u.username != data.username) && exists u :: u in users && u.email == data.email
    ensures r == Done <==> forall u :: u in users ==> u.username != data.username && u.email != data.email
  {
    if UserByUsername(users, data.username).Some? then Failed(UsernameTaken)
    else if UserByEmail(users, data.email).Some? then Failed(EmailTaken)
    else Done
  }

  /** `register`: appends the new user only when both checks pass. */
  method Register(db: Database, data: Registration, id: string, now: Timestamp) returns (reply: Reply)
    modifies db`users
    ensures reply == RegisterReply(old(db.users), data)
    ensures reply == Done ==> db.users == old(db.users) + [FromNewUser(RegisteredUser(data), id, now)]
    ensures reply != Done ==> db.users == old(db.users)
  {
    reply := RegisterReply(db.users, data);
    if reply == Done {
      var _ := db.CreateUser(RegisteredUser(data), id, now);
    }
  }

  /** After a successful registration the new username is found, and it is the new user. */
  lemma RegisteredUserIsFound(users: seq<User>, data: Registration, id: string, now: Timestamp)
    requires RegisterReply(users, data) == Done
    ensures UserByUsername(users + [FromNewUser(RegisteredUser(data), id, now)], data.username)
      == Some(FromNewUser(RegisteredUser(data), id, now))
  {
    var s := users + [FromNewUser(RegisteredUser(data), id, now)];
    var byName := (u: User) => u.username == data.username;
    var k := FindIndex(s, byName);
    assert byName(s[|users|]);
    assert forall j :: 0 <= j < |users| ==> s[j] == users[j] && !byName(s[j]);
    assert k == |users|;
  }

  // ------------------------------------------------------------------
  // createClass, joinClass, exitClass, deleteClass
  // ------------------------------------------------------------------

  /** `Math.floor(10000 + Math.random() * 90000)` for a draw in [0, 1). */
  function CodeNumber(draw: real): (n: nat)
    requires 0.0 <= draw < 1.0
    ensures 10000 <= n <= 99999
  {
    (10000.0 + draw * 90000.0).Floor
  }

  /** The class code: the decimal string of that number, five digits long. */
  function ClassCode(draw: real): (code: string)
    requires 0.0 <= draw < 1.0
    ensures |code| == 5
    ensures forall i :: 0 <= i < |code| ==> '0' <= code[i] <= '9'
    ensures 10000 <= DecimalValue(code) <= 99999
  {
    var n := CodeNumber(draw);
    FiveDigits(n);
    DecimalRoundTrip(n);
    DecimalString(n)
  }

  /** `createClass`: a lecturer who is not found makes `lecturer.classId`
      throw; one who already has a class is refused. */
  function CreateClassReply(users: seq<User>, lecturerId: string, code: string, newClassId: string): (r: Reply)
    ensures r.ClassCreated? || r == Failed(AlreadyHasClass) || r == Failed(Unexpected)
    ensures UserById(users, lecturerId).None? ==> r == Failed(Unexpected)
    ensures r == Failed(AlreadyHasClass) <==> UserById(users, lecturerId).Some? && Truthy(UserById(users, lecturerId).value.classId)
    ensures r.ClassCreated? ==> r == ClassCreated(newClassId, code)
  {
    match UserById(users, lecturerId)
    case None => Failed(Unexpected)
    case Some(lecturer) => if Truthy(lecturer.classId) then Failed(AlreadyHasClass) else ClassCreated(newClassId, code)
  }

  /** The patch `{ classId: c }` / `{ classId: null }`. */
  function SetClass(c: Option<string>): UserPatch
  {
    EmptyUserPatch.(classId := Some(c))
  }

  /** `createClass`: creates the class and records it on the lecturer. */
  method CreateClass(db: Database, lecturerId: string, className: string, draw: real, newClassId: string, now: Timestamp)
    returns (reply: Reply)
    requires 0.0 <= draw < 1.0
    modifies db`users, db`classes
    ensures reply == CreateClassReply(old(db.users), lecturerId, ClassCode(draw), newClassId)
    ensures reply.ClassCreated? ==>
      && db.classes == old(db.classes) + [Class(newClassId, className, ClassCode(draw), lecturerId, now)]
      && db.users == UpdateUser(old(db.users), lecturerId, SetClass(Some(newClassId)))
      && UserById(db.users, lecturerId) == Some(UserById(old(db.users), lecturerId).value.(classId := Some(newClassId)))
    ensures !reply.ClassCreated? ==> db.classes == old(db.classes) && db.users == old(db.users)
  {
    var code := ClassCode(draw);
    reply := CreateClassReply(db.users, lecturerId, code, newClassId);
    if reply.ClassCreated? {
      var id := db.CreateClass(className, code, lecturerId, newClassId, now);
      UpdateUserThenFind(db.users, lecturerId, SetClass(Some(id)));
      db.UpdateUserById(lecturerId, SetClass(Some(id)));
    }
  }

  /** A lecturer holds at most one class: once `createClass` has recorded a
      (non-empty) class id on the lecturer, every further attempt is refused. */
  lemma OneClassPerLecturer(users: seq<User>, lecturerId: string, newClassId: string, code: string, code2: string, id2: string)
    requires newClassId != ""
    requires CreateClassReply(users, lecturerId, code, newClassId).ClassCreated?
    ensures CreateClassReply(UpdateUser(users, lecturerId, SetClass(Some(newClassId))), lecturerId, code2, id2)
      == Failed(AlreadyHasClass)
  {
    UpdateUserThenFind(users, lecturerId, SetClass(Some(newClassId)));
  }

  /** `joinClass`: an unknown student throws, a student with a class is refused
      (checked first), then the code must name a class. */
  function JoinClassReply(users: seq<User>, classes: seq<Class>, studentId: string, code: string): (r: Reply)
    ensures r.ClassJoined? || r == Failed(AlreadyJoined) || r == Failed(InvalidClassCode) || r == Failed(Unexpected)
    ensures UserById(users, studentId).None? ==> r == Failed(Unexpected)
    ensures r == Failed(AlreadyJoined) <==> UserById(users, studentId).Some? && Truthy(UserById(users, studentId).value.classId)
    ensures r == Failed(InvalidClassCode) <==>
      UserById(users, studentId).Some? && !Truthy(UserById(users, studentId).value.classId) && ClassByCode(classes, code).None?
    ensures r.ClassJoined? ==> ClassByCode(classes, code).Some? && r.classId == ClassByCode(classes, code).value.id
  {
    match UserById(users, studentId)
    case None => Failed(Unexpected)
    case Some(student) =>
      if Truthy(student.classId) then Failed(AlreadyJoined)
      else match ClassByCode(classes, code)
        case None => Failed(InvalidClassCode)
        case Some(c) => ClassJoined(c.id)
  }

  /** `joinClass`: records the class found by code on the student. */
  method JoinClass(db: Database, studentId: string, code: string) returns (reply: Reply)
    modifies db`users
    ensures reply == JoinClassReply(old(db.users), db.classes, studentId, code)
    ensures reply.ClassJoined? ==>
      && db.users == UpdateUser(old(db.users), studentId, SetClass(Some(reply.classId)))
      && UserById(db.users, studentId) == Some(UserById(old(db.users), studentId).value.(classId := Some(reply.classId)))
    ensures !reply.ClassJoined? ==> db.users == old(db.users)
  {
    reply := JoinClassReply(db.users, db.classes, studentId, code);
    if reply.ClassJoined? {
      UpdateUserThenFind(db.users, studentId, SetClass(Some(reply.classId)));
      db.UpdateUserById(studentId, SetClass(Some(reply.classId)));
    }
  }

  /** `exitClass`: sets the user's class to null, whatever it was. */
  method ExitClass(db: Database, userId: string) returns (reply: Reply)
    modifies db`users
    ensures reply == Done
    ensures db.users == UpdateUser(old(db.users), userId, SetClass(None))
    ensures UserById(old(db.users), userId).Some? ==> UserById(db.users, userId) == Some(UserById(old(db.users), userId).value.(classId := None))
  {
    UpdateUserThenFind(db.users, userId, SetClass(None));
    db.UpdateUserById(userId, SetClass(None));
    reply := Done;
  }

  /** After removing everyone from the class and clearing the lecturer's
      class, nobody is in the class and the lecturer is in none. */
  lemma NoMemberLeft(users: seq<User>, classId: string, lecturerId: string)
    ensures var r := UpdateUser(ClearClass(users, classId), lecturerId, SetClass(None));
      && (forall u :: u in r ==> u.classId != Some(classId))
      && (UserById(r, lecturerId).Some? ==> UserById(r, lecturerId).value.classId.None?)
  {
    var cleared := ClearClass(users, classId);
    var r := UpdateUser(cleared, lecturerId, SetClass(None));
    forall u | u in r
      ensures u.classId != Some(classId)
    {
      var j :| 0 <= j < |r| && r[j] == u;
      assert cleared[j].classId != Some(classId);
    }
    UpdateUserThenFind(cleared, lecturerId, SetClass(None));
  }

  /** `deleteClass(classId, lecturerId)`: every member loses the class, the
      lecturer's class is cleared, and the class's schedules, assignments,
      attendance sessions with their records, and the class itself are
      deleted. Submissions are kept. */
  method DeleteClass(db: Database, classId: string, lecturerId: string) returns (reply: Reply)
    modifies db`users, db`schedules, db`assignments, db`attendances, db`attendanceRecords, db`classes
    ensures reply == Done
    ensures db.users == UpdateUser(ClearClass(old(db.users), classId), lecturerId, SetClass(None))
    ensures forall u :: u in db.users ==> u.classId != Some(classId)
    ensures UserById(db.users, lecturerId).Some? ==> UserById(db.users, lecturerId).value.classId.None?
    ensures db.schedules == SchedulesNotOfClass(old(db.schedules), classId)
    ensures db.assignments == AssignmentsNotOfClass(old(db.assignments), classId)
    ensures db.attendanceRecords == RecordsNotOfClass(old(db.attendanceRecords), old(db.attendances), classId)
    ensures db.attendances == AttendancesNotOfClass(old(db.attendances), classId)
    ensures db.classes == ClassesWithout(old(db.classes), classId)
    ensures db.submissions == old(db.submissions) && db.sessions == old(db.sessions)
  {
    NoMemberLeft(db.users, classId, lecturerId);
    db.RemoveFromClass(classId);
    db.UpdateUserById(lecturerId, SetClass(None));
    db.DeleteSchedulesOfClass(classId);
    db.DeleteAssignmentsOfClass(classId);
    db.DeleteAttendanceOfClass(classId);
    db.DeleteClass(classId);
    reply := Done;
  }

  // ------------------------------------------------------------------
  // gradeSubmission, updateAttendanceRecord
  // ------------------------------------------------------------------

  /** `gradeSubmission`: score, feedback and grading time on that one submission. */
  method GradeSubmission(db: Database, submissionId: string, score: real, feedback: string, now: Timestamp) returns (reply: Reply)
    modifies db`submissions
    ensures reply == Done
    ensures db.submissions == UpdateSubmission(old(db.submissions), submissionId, SubmissionPatch(Some(score), Some(feedback), Some(now)))
  {
    db.UpdateSubmissionById(submissionId, SubmissionPatch(Some(score), Some(feedback), Some(now)));
    reply := Done;
  }

  /** Grading touches exactly the first submission with that id: it gets the
      score, feedback and time and keeps everything else; all others are unchanged. */
  lemma GradeTouchesOne(submissions: seq<Submission>, id: string, score: real, feedback: string, now: Timestamp)
    ensures var r := UpdateSubmission(submissions, id, SubmissionPatch(Some(score), Some(feedback), Some(now)));
      var i := FindIndex(submissions, (s: Submission) => s.id == id);
      && |r| == |submissions|
      && (forall j :: 0 <= j < |r| && j != i ==> r[j] == submissions[j])
      && (0 <= i ==> r[i] == submissions[i].(score := Number(score), feedback := Some(feedback), gradedAt := Some(now)))
  {
  }

  /** `updateAttendanceRecord`. */
  method UpdateAttendanceRecord(db: Database, recordId: string, status: Status) returns (reply: Reply)
    modifies db`attendanceRecords
    ensures reply == Done
    ensures db.attendanceRecords == UpdateRecord(old(db.attendanceRecords), recordId, Some(status))
  {
    db.UpdateRecordById(recordId, Some(status));
    reply := Done;
  }

  // ------------------------------------------------------------------
  // createAttendance
  // ------------------------------------------------------------------

  /** The record `createAttendance` writes for the i-th student of the class. */
  function AbsentRecordFor(students: seq<User>, i: nat, attendanceId: string, recordId: nat -> string): AttendanceRecord
    requires i < |students|
  {
    AttendanceRecord(recordId(i), attendanceId, students[i].id, Absent)
  }

  /** The student positions below n whose insert does not fail, in increasing order. */
  function WrittenIndices(n: nat, failing: set<nat>): (r: seq<nat>)
    ensures |r| <= n
    ensures forall k :: 0 <= k < |r| ==> r[k] < n && r[k] !in failing
    ensures forall k, l :: 0 <= k < l < |r| ==> r[k] < r[l]
    decreases n
  {
    if n == 0 then []
    else WrittenIndices(n - 1, failing) + (if n - 1 in failing then [] else [n - 1])
  }

  /** The records written for the students, in order, skipping those whose
      `createRecord` failed (indices in `failing`). */
  function AbsentRecords(students: seq<User>, attendanceId: string, recordId: nat -> string, failing: set<nat>): (r: seq<AttendanceRecord>)
    ensures |r| <= |students|
    ensures forall k :: 0 <= k < |r| ==> r[k].attendanceId == attendanceId && r[k].status == Absent
    decreases |students|
  {
    if |students| == 0 then []
    else
      var n := |students| - 1;
      AbsentRecords(students[..n], attendanceId, recordId, failing)
      + (if n in failing then [] else [AbsentRecordFor(students, n, attendanceId, recordId)])
  }

  /** One more student: its record, unless its insert failed, follows those of the students before it. */
  lemma AbsentRecordsStep(students: seq<User>, i: nat, attendanceId: string, recordId: nat -> string, failing: set<nat>)
    requires i < |students|
    ensures AbsentRecords(students[..i + 1], attendanceId, recordId, failing)
      == AbsentRecords(students[..i], attendanceId, recordId, failing)
         + (if i in failing then [] else [AbsentRecordFor(students, i, attendanceId, recordId)])
  {
    assert students[..i + 1][..i] == students[..i];
  }

  /** The k-th record written is that of the k-th position in
      `WrittenIndices`: positions whose insert does not fail, strictly
      increasing, so no position gets two records. */
  lemma {:induction false} AbsentRecordsIndexed(students: seq<User>, attendanceId: string, recordId: nat -> string, failing: set<nat>)
    ensures var r := AbsentRecords(students, attendanceId, recordId, failing);
            var idx := WrittenIndices(|students|, failing);
            |r| == |idx| && forall k :: 0 <= k < |r| ==> r[k] == AbsentRecordFor(students, idx[k], attendanceId, recordId)
    decreases |students|
  {
    if |students| > 0 {
      var n := |students| - 1;
      var pre := students[..n];
      AbsentRecordsIndexed(pre, attendanceId, recordId, failing);
      var rp := AbsentRecords(pre, attendanceId, recordId, failing);
      var ip := WrittenIndices(n, failing);
      var r := AbsentRecords(students, attendanceId, recordId, failing);
      var idx := WrittenIndices(|students|, failing);
      forall k | 0 <= k < |rp|
        ensures AbsentRecordFor(pre, ip[k], attendanceId, recordId) == AbsentRecordFor(students, ip[k], attendanceId, recordId)
      {
        assert pre[ip[k]] == students[ip[k]];
      }
      if n in failing {
        assert r == rp && idx == ip;
      } else {
        assert r == rp + [AbsentRecordFor(students, n, attendanceId, recordId)];
        assert idx == ip + [n];
      }
    }
  }

  /** Every student whose insert did not fail gets its absent record. */
  lemma {:induction false} AbsentRecordsComplete(students: seq<User>, attendanceId: string, recordId: nat -> string, failing: set<nat>)
    ensures forall i :: 0 <= i < |students| && i !in failing ==>
      AbsentRecordFor(students, i, attendanceId, recordId) in AbsentRecords(students, attendanceId, recordId, failing)
    decreases |students|
  {
    if |students| > 0 {
      var n := |students| - 1;
      var pre := students[..n];
      AbsentRecordsComplete(pre, attendanceId, recordId, failing);
      var rp := AbsentRecords(pre, attendanceId, recordId, failing);
      var r := AbsentRecords(students, attendanceId, recordId, failing);
      forall i | 0 <= i < |students| && i !in failing
        ensures AbsentRecordFor(students, i, attendanceId, recordId) in r
      {
        if i < n {
          assert pre[i] == students[i];
          assert AbsentRecordFor(pre, i, attendanceId, recordId) in rp;
        } else {
          assert r[|rp|] == AbsentRecordFor(students, n, attendanceId, recordId);
        }
      }
    }
  }

  /** Every record written is the absent record of a student whose insert did not fail. */
  lemma AbsentRecordsSound(students: seq<User>, attendanceId: string, recordId: nat -> string, failing: set<nat>)
    ensures forall k :: 0 <= k < |AbsentRecords(students, attendanceId, recordId, failing)| ==>
      exists i :: 0 <= i < |students| && i !in failing
        && AbsentRecords(students, attendanceId, recordId, failing)[k] == AbsentRecordFor(students, i, attendanceId, recordId)
    decreases |students|
  {
    var r := AbsentRecords(students, attendanceId, recordId, failing);
    var idx := WrittenIndices(|students|, failing);
    AbsentRecordsIndexed(students, attendanceId, recordId, failing);
    forall k | 0 <= k < |r|
      ensures exists i :: 0 <= i < |students| && i !in failing && r[k] == AbsentRecordFor(students, i, attendanceId, recordId)
    {
      assert idx[k] < |students| && idx[k] !in failing;
      assert r[k] == AbsentRecordFor(students, idx[k], attendanceId, recordId);
    }
  }

  /** When no insert fails, the i-th record is the i-th student's. */
  lemma {:induction false} AbsentRecordsAllWritten(students: seq<User>, attendanceId: string, recordId: nat -> string)
    ensures var r := AbsentRecords(students, attendanceId, recordId, {});
      |r| == |students| && forall i :: 0 <= i < |r| ==> r[i] == AbsentRecordFor(students, i, attendanceId, recordId)
    decreases |students|
  {
    if |students| > 0 {
      AbsentRecordsAllWritten(students[..|students| - 1], attendanceId, recordId);
    }
  }

  /** One turn of the loop: the i-th student's absent record, unless its
      insert fails, in which case the error is caught and nothing is written. */
  method WriteAbsentRecord(db: Database, students: seq<User>, i: nat, attendanceId: string,
                           recordId: nat -> string, failing: set<nat>)
    requires i < |students|
    modifies db`attendanceRecords
    ensures db.attendanceRecords == old(db.attendanceRecords)
      + (if i in failing then [] else [AbsentRecordFor(students, i, attendanceId, recordId)])
  {
    if i !in failing {
      var _ := db.CreateRecord(attendanceId, students[i].id, Absent, recordId(i));
    } else {
      assert db.attendanceRecords + [] == db.attendanceRecords;
    }
  }

  /** `createAttendance`: one session, then one `absent` record per student
      currently in the class; an insert that fails (its index in `failing`)
      is skipped and the loop goes on. */
  method CreateAttendance(db: Database, classId: string, title: string, date: Timestamp, attendanceId: string,
                          now: Timestamp, recordId: nat -> string, failing: set<nat>)
    returns (reply: Reply)
    modifies db`attendances, db`attendanceRecords
    ensures reply == AttendanceCreated(attendanceId)
    ensures db.attendances == old(db.attendances) + [Attendance(attendanceId, classId, title, date, now)]
    ensures db.attendanceRecords == old(db.attendanceRecords)
      + AbsentRecords(StudentsInClass(db.users, classId), attendanceId, recordId, failing)
  {
    var id := db.CreateAttendance(classId, title, date, attendanceId, now);
    var students := db.FindStudentsByClassId(classId);
    assert id == attendanceId && students == StudentsInClass(db.users, classId);
    var i := 0;
    while i < |students|
      invariant 0 <= i <= |students|
      invariant db.attendances == old(db.attendances) + [Attendance(attendanceId, classId, title, date, now)]
      invariant db.attendanceRecords == old(db.attendanceRecords) + AbsentRecords(students[..i], id, recordId, failing)
    {
      AbsentRecordsStep(students, i, id, recordId, failing);
      WriteAbsentRecord(db, students, i, id, recordId, failing);
      i := i + 1;
    }
    assert students[..|students|] == students;
    reply := AttendanceCreated(id);
  }
}
