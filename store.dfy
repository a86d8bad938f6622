/** The in-memory stand-in for the database (lib/db.ts): eight module-level
    arrays, one per table, changed by `push`, by assignment at an index found
    with `findIndex`, and by reassignment with `filter`/`map`. The lookups and
    transformations are pure functions over a table snapshot; the class
    `Database` holds the tables and applies them. */
module Store {
  import opened Common
  import opened Schema

  // ------------------------------------------------------------------
  // Lookups (`find` / `filter` over one table)
  // ------------------------------------------------------------------

  /** `(user) => user.id === id`, shared by the lookup and the update by id. */
  function HasId(id: string): User -> bool
  {
    (u: User) => u.id == id
  }

  /** `users.find((user) => user.id === id)`. */
  function UserById(users: seq<User>, id: string): (r: Option<User>)
    ensures r.Some? ==> r.value in users && r.value.id == id
    ensures r.None? <==> forall u :: u in users ==> u.id != id
  {
    Find(users, HasId(id))
  }

  /** `users.find((user) => user.username === username)`. */
  function UserByUsername(users: seq<User>, username: string): (r: Option<User>)
    ensures r.Some? ==> r.value in users && r.value.username == username
    ensures r.None? <==> forall u :: u in users ==> u.username != username
  {
    Find(users, (u: User) => u.username == username)
  }

  /** `users.find((user) => user.email === email)`. */
  function UserByEmail(users: seq<User>, email: string): (r: Option<User>)
    ensures r.Some? ==> r.value in users && r.value.email == email
    ensures r.None? <==> forall u :: u in users ==> u.email != email
  {
    Find(users, (u: User) => u.email == email)
  }

  /** The users `findStudentsByClassId` keeps: members of the class with role student. */
  predicate IsStudentOf(u: User, classId: string)
  {
    u.classId == Some(classId) && u.role == "student"
  }

  /** `users.filter(...)`: exactly the students of the class, in table order. */
  function StudentsInClass(users: seq<User>, classId: string): (r: seq<User>)
    ensures forall i :: 0 <= i < |r| ==> r[i] in users && IsStudentOf(r[i], classId)
    ensures forall u :: u in users && IsStudentOf(u, classId) ==> u in r
  {
    Filter(users, (u: User) => IsStudentOf(u, classId))
  }

  /** `findStudentsByClassId` reads the table front to back: the students of
      a longer table are those of its first part followed by those of the rest. */
  lemma StudentsInClassConcat(a: seq<User>, b: seq<User>, classId: string)
    ensures StudentsInClass(a + b, classId) == StudentsInClass(a, classId) + StudentsInClass(b, classId)
  {
    FilterConcat(a, b, (u: User) => IsStudentOf(u, classId));
  }

  /** `sessions.find((s) => s.id === sessionId)`, then the user it belongs to;
      no session gives None (`null`), and so does a session whose user is gone. */
  function UserBySession(sessions: seq<Session>, users: seq<User>, sessionId: string): (r: Option<User>)
    ensures (forall s :: s in sessions ==> s.id != sessionId) ==> r.None?
    ensures r.Some? ==> exists s :: s in sessions && s.id == sessionId && r.value.id == s.userId
    ensures forall i :: 0 <= i < |sessions| && sessions[i].id == sessionId
                        && (forall j :: 0 <= j < i ==> sessions[j].id != sessionId)
                        ==> r == UserById(users, sessions[i].userId)
  {
    match Find(sessions, (s: Session) => s.id == sessionId)
    case None => None
    case Some(s) => UserById(users, s.userId)
  }

  /** `verifyPassword`: `user?.password === password` for the first user with that id. */
  function VerifyPassword(users: seq<User>, id: string, password: string): (r: bool)
    ensures r <==> exists i :: 0 <= i < |users| && users[i].id == id && users[i].password == password
                             && forall j :: 0 <= j < i ==> users[j].id != id
  {
    var i := FindIndex(users, HasId(id));
    i >= 0 && users[i].password == password
  }

  function ClassById(classes: seq<Class>, id: string): (r: Option<Class>)
    ensures r.Some? ==> r.value in classes && r.value.id == id
    ensures r.None? <==> forall c :: c in classes ==> c.id != id
  {
    Find(classes, (c: Class) => c.id == id)
  }

  function ClassByCode(classes: seq<Class>, code: string): (r: Option<Class>)
    ensures r.Some? ==> r.value in classes && r.value.code == code
    ensures r.None? <==> forall c :: c in classes ==> c.code != code
  {
    Find(classes, (c: Class) => c.code == code)
  }

  function SubmissionsOfStudent(submissions: seq<Submission>, studentId: string): (r: seq<Submission>)
    ensures forall i :: 0 <= i < |r| ==> r[i] in submissions && r[i].studentId == studentId
    ensures forall s :: s in submissions && s.studentId == studentId ==> s in r
  {
    Filter(submissions, (s: Submission) => s.studentId == studentId)
  }

  /** The student's submissions grow by exactly the ones appended for that student. */
  lemma SubmissionsOfStudentConcat(a: seq<Submission>, b: seq<Submission>, studentId: string)
    ensures SubmissionsOfStudent(a + b, studentId) == SubmissionsOfStudent(a, studentId) + SubmissionsOfStudent(b, studentId)
  {
    FilterConcat(a, b, (s: Submission) => s.studentId == studentId);
  }

  function RecordsOfStudent(records: seq<AttendanceRecord>, studentId: string): (r: seq<AttendanceRecord>)
    ensures forall i :: 0 <= i < |r| ==> r[i] in records && r[i].studentId == studentId
    ensures forall x :: x in records && x.studentId == studentId ==> x in r
  {
    Filter(records, (x: AttendanceRecord) => x.studentId == studentId)
  }

  lemma RecordsOfStudentConcat(a: seq<AttendanceRecord>, b: seq<AttendanceRecord>, studentId: string)
    ensures RecordsOfStudent(a + b, studentId) == RecordsOfStudent(a, studentId) + RecordsOfStudent(b, studentId)
  {
    FilterConcat(a, b, (x: AttendanceRecord) => x.studentId == studentId);
  }

  /** The records with the given status. */
  function WithStatus(records: seq<AttendanceRecord>, status: Status): (r: seq<AttendanceRecord>)
    ensures forall i :: 0 <= i < |r| ==> r[i] in records && r[i].status == status
    ensures forall x :: x in records && x.status == status ==> x in r
  {
    Filter(records, (x: AttendanceRecord) => x.status == status)
  }

  /** Present and late records are disjoint, so together they are at most all records. */
  lemma {:induction false} PresentAndLateBound(records: seq<AttendanceRecord>)
    ensures |WithStatus(records, Present)| + |WithStatus(records, Late)| <= |records|
    decreases |records|
  {
    if |records| > 0 {
      PresentAndLateBound(records[1..]);
    }
  }

  function AttendancesOfClass(attendances: seq<Attendance>, classId: string): (r: seq<Attendance>)
    ensures forall i :: 0 <= i < |r| ==> r[i] in attendances && r[i].classId == classId
    ensures forall a :: a in attendances && a.classId == classId ==> a in r
  {
    Filter(attendances, (a: Attendance) => a.classId == classId)
  }

  function AssignmentsOfClass(assignments: seq<Assignment>, classId: string): (r: seq<Assignment>)
    ensures forall i :: 0 <= i < |r| ==> r[i] in assignments && r[i].classId == classId
    ensures forall a :: a in assignments && a.classId == classId ==> a in r
  {
    Filter(assignments, (a: Assignment) => a.classId == classId)
  }

  function SchedulesOfClass(schedules: seq<Schedule>, classId: string): (r: seq<Schedule>)
    ensures forall i :: 0 <= i < |r| ==> r[i] in schedules && r[i].classId == classId
    ensures forall s :: s in schedules && s.classId == classId ==> s in r
  {
    Filter(schedules, (s: Schedule) => s.classId == classId)
  }

  /** `classes.findByLecturerId(lecturerId)`: the first class the lecturer created. */
  function ClassOfLecturer(classes: seq<Class>, lecturerId: string): (r: Option<Class>)
    ensures r.Some? ==> r.value in classes && r.value.lecturerId == lecturerId
    ensures r.None? <==> forall c :: c in classes ==> c.lecturerId != lecturerId
  {
    Find(classes, (c: Class) => c.lecturerId == lecturerId)
  }

  function AssignmentById(assignments: seq<Assignment>, id: string): (r: Option<Assignment>)
    ensures r.Some? ==> r.value in assignments && r.value.id == id
    ensures r.None? <==> forall a :: a in assignments ==> a.id != id
  {
    Find(assignments, (a: Assignment) => a.id == id)
  }

  function SubmissionById(submissions: seq<Submission>, id: string): (r: Option<Submission>)
    ensures r.Some? ==> r.value in submissions && r.value.id == id
    ensures r.None? <==> forall s :: s in submissions ==> s.id != id
  {
    Find(submissions, (s: Submission) => s.id == id)
  }

  function SubmissionsOfAssignment(submissions: seq<Submission>, assignmentId: string): (r: seq<Submission>)
    ensures forall i :: 0 <= i < |r| ==> r[i] in submissions && r[i].assignmentId == assignmentId
    ensures forall s :: s in submissions && s.assignmentId == assignmentId ==> s in r
  {
    Filter(submissions, (s: Submission) => s.assignmentId == assignmentId)
  }

  /** `findByAssignmentAndStudent`: the student's first submission for the assignment. */
  function SubmissionOf(submissions: seq<Submission>, assignmentId: string, studentId: string): (r: Option<Submission>)
    ensures r.Some? ==> r.value in submissions && r.value.assignmentId == assignmentId && r.value.studentId == studentId
    ensures r.None? <==> forall s :: s in submissions ==> !(s.assignmentId == assignmentId && s.studentId == studentId)
  {
    Find(submissions, (s: Submission) => s.assignmentId == assignmentId && s.studentId == studentId)
  }

  /** The student's submission for an assignment is among both the
      assignment's and the student's submissions. */
  lemma SubmissionOfInBoth(submissions: seq<Submission>, assignmentId: string, studentId: string)
    requires SubmissionOf(submissions, assignmentId, studentId).Some?
    ensures SubmissionOf(submissions, assignmentId, studentId).value in SubmissionsOfAssignment(submissions, assignmentId)
    ensures SubmissionOf(submissions, assignmentId, studentId).value in SubmissionsOfStudent(submissions, studentId)
  {
  }

  function AttendanceById(attendances: seq<Attendance>, id: string): (r: Option<Attendance>)
    ensures r.Some? ==> r.value in attendances && r.value.id == id
    ensures r.None? <==> forall a :: a in attendances ==> a.id != id
  {
    Find(attendances, (a: Attendance) => a.id == id)
  }

  function RecordsOfAttendance(records: seq<AttendanceRecord>, attendanceId: string): (r: seq<AttendanceRecord>)
    ensures forall i :: 0 <= i < |r| ==> r[i] in records && r[i].attendanceId == attendanceId
    ensures forall x :: x in records && x.attendanceId == attendanceId ==> x in r
  {
    Filter(records, (x: AttendanceRecord) => x.attendanceId == attendanceId)
  }

  // ------------------------------------------------------------------
  // Updates: merge at the first index with the id (`{ ...row, ...data }`)
  // ------------------------------------------------------------------

  /** `Partial<User>` without id and createdAt: None is a property that is not present. */
  datatype UserPatch = UserPatch(
    username: Option<string>,
    password: Option<string>,
    fullName: Option<string>,
    email: Option<string>,
    role: Option<string>,
    classId: Option<Option<string>>)

  const EmptyUserPatch := UserPatch(None, None, None, None, None, None)

  function Override<T>(old_: T, patch: Option<T>): T
  {
    if patch.Some? then patch.value else old_
  }

  /** `{ ...user, ...patch }`: every property present in the patch wins. */
  function MergeUser(u: User, p: UserPatch): (r: User)
    ensures r.id == u.id && r.createdAt == u.createdAt
    ensures r.username == if p.username.Some? then p.username.value else u.username
    ensures r.password == if p.password.Some? then p.password.value else u.password
    ensures r.fullName == if p.fullName.Some? then p.fullName.value else u.fullName
    ensures r.email == if p.email.Some? then p.email.value else u.email
    ensures r.role == if p.role.Some? then p.role.value else u.role
    ensures r.classId == if p.classId.Some? then p.classId.value else u.classId
  {
    u.(username := Override(u.username, p.username),
       password := Override(u.password, p.password),
       fullName := Override(u.fullName, p.fullName),
       email := Override(u.email, p.email),
       role := Override(u.role, p.role),
       classId := Override(u.classId, p.classId))
  }

  /** Merging the same patch twice is merging it once, and the empty patch changes nothing. */
  lemma MergeUserIdempotent(u: User, p: UserPatch)
    ensures MergeUser(MergeUser(u, p), p) == MergeUser(u, p)
    ensures MergeUser(u, EmptyUserPatch) == u
  {
  }

  /** `users.update(id, patch)`. */
  function UpdateUser(users: seq<User>, id: string, p: UserPatch): (r: seq<User>)
    ensures |r| == |users|
    ensures (forall u :: u in users ==> u.id != id) ==> r == users
    ensures forall j :: 0 <= j < |users| ==>
      r[j] == if j == FindIndex(users, HasId(id)) then MergeUser(users[j], p) else users[j]
  {
    UpdateFirst(users, HasId(id), (u: User) => MergeUser(u, p))
  }

  /** After `users.update(id, patch)` the lookup by id finds the merged user,
      and nothing when there was no such user. */
  lemma UpdateUserThenFind(users: seq<User>, id: string, p: UserPatch)
    ensures UserById(users, id).None? ==> UserById(UpdateUser(users, id, p), id).None?
    ensures UserById(users, id).Some? ==>
      UserById(UpdateUser(users, id, p), id) == Some(MergeUser(UserById(users, id).value, p))
  {
    var i := FindIndex(users, HasId(id));
    var r := UpdateUser(users, id, p);
    if i >= 0 {
      assert HasId(id)(r[i]);
      var k := FindIndex(r, HasId(id));
      assert k == i;
    }
  }

  /** `removeFromClass`: `users.map(...)` dropping the class from its members. */
  function ClearClass(users: seq<User>, classId: string): (r: seq<User>)
    ensures |r| == |users|
    ensures forall i :: 0 <= i < |r| ==> r[i].classId != Some(classId)
    ensures forall i :: 0 <= i < |r| && users[i].classId != Some(classId) ==> r[i] == users[i]
    ensures forall i :: 0 <= i < |r| ==> r[i] == users[i].(classId := r[i].classId)
  {
    seq(|users|, i requires 0 <= i < |users| =>
      if users[i].classId == Some(classId) then users[i].(classId := None) else users[i])
  }

  /** `Partial<Submission>` as `gradeSubmission` passes it. */
  datatype SubmissionPatch = SubmissionPatch(score: Option<real>, feedback: Option<string>, gradedAt: Option<Timestamp>)

  function MergeSubmission(s: Submission, p: SubmissionPatch): (r: Submission)
    ensures r.id == s.id && r.assignmentId == s.assignmentId && r.studentId == s.studentId
    ensures r.submissionUrl == s.submissionUrl && r.submittedAt == s.submittedAt
    ensures r.score == if p.score.Some? then Number(p.score.value) else s.score
    ensures r.feedback == if p.feedback.Some? then p.feedback else s.feedback
    ensures r.gradedAt == if p.gradedAt.Some? then p.gradedAt else s.gradedAt
  {
    s.(score := if p.score.Some? then Number(p.score.value) else s.score,
       feedback := if p.feedback.Some? then p.feedback else s.feedback,
       gradedAt := if p.gradedAt.Some? then p.gradedAt else s.gradedAt)
  }

  function UpdateSubmission(submissions: seq<Submission>, id: string, p: SubmissionPatch): (r: seq<Submission>)
    ensures |r| == |submissions|
    ensures (forall s :: s in submissions ==> s.id != id) ==> r == submissions
    ensures forall j :: 0 <= j < |submissions| ==>
      r[j] == if j == FindIndex(submissions, (s: Submission) => s.id == id) then MergeSubmission(submissions[j], p) else submissions[j]
  {
    UpdateFirst(submissions, (s: Submission) => s.id == id, (s: Submission) => MergeSubmission(s, p))
  }

  /** `attendance.updateRecord(id, { status })`. */
  function UpdateRecord(records: seq<AttendanceRecord>, id: string, status: Option<Status>): (r: seq<AttendanceRecord>)
    ensures |r| == |records|
    ensures (forall x :: x in records ==> x.id != id) ==> r == records
    ensures forall j :: 0 <= j < |records| ==>
      r[j] == if j == FindIndex(records, (x: AttendanceRecord) => x.id == id) then records[j].(status := Override(records[j].status, status)) else records[j]
  {
    UpdateFirst(records, (x: AttendanceRecord) => x.id == id,
      (x: AttendanceRecord) => x.(status := Override(x.status, status)))
  }

  // ------------------------------------------------------------------
  // Deletions (`table = table.filter(...)`)
  // ------------------------------------------------------------------

  function SessionsWithout(sessions: seq<Session>, id: string): (r: seq<Session>)
    ensures forall i :: 0 <= i < |r| ==> r[i] in sessions && r[i].id != id
    ensures forall s :: s in sessions && s.id != id ==> s in r
  {
    Filter(sessions, (s: Session) => s.id != id)
  }

  function ClassesWithout(classes: seq<Class>, id: string): (r: seq<Class>)
    ensures forall i :: 0 <= i < |r| ==> r[i] in classes && r[i].id != id
    ensures forall c :: c in classes && c.id != id ==> c in r
  {
    Filter(classes, (c: Class) => c.id != id)
  }

  function SchedulesWithout(schedules: seq<Schedule>, id: string): (r: seq<Schedule>)
    ensures forall i :: 0 <= i < |r| ==> r[i] in schedules && r[i].id != id
    ensures forall s :: s in schedules && s.id != id ==> s in r
  {
    Filter(schedules, (s: Schedule) => s.id != id)
  }

  function SchedulesNotOfClass(schedules: seq<Schedule>, classId: string): (r: seq<Schedule>)
    ensures forall i :: 0 <= i < |r| ==> r[i] in schedules && r[i].classId != classId
    ensures forall s :: s in schedules && s.classId != classId ==> s in r
  {
    Filter(schedules, (s: Schedule) => s.classId != classId)
  }

  function AssignmentsWithout(assignments: seq<Assignment>, id: string): (r: seq<Assignment>)
    ensures forall i :: 0 <= i < |r| ==> r[i] in assignments && r[i].id != id
    ensures forall a :: a in assignments && a.id != id ==> a in r
  {
    Filter(assignments, (a: Assignment) => a.id != id)
  }

  function AssignmentsNotOfClass(assignments: seq<Assignment>, classId: string): (r: seq<Assignment>)
    ensures forall i :: 0 <= i < |r| ==> r[i] in assignments && r[i].classId != classId
    ensures forall a :: a in assignments && a.classId != classId ==> a in r
  {
    Filter(assignments, (a: Assignment) => a.classId != classId)
  }

  /** Deleting by id keeps the other rows in their order: deleting from a
      concatenation deletes from each part. Stated for the sessions, the
      schedule entries and the classes; every `filter` deletion above has the
      same shape. */
  lemma SessionsWithoutConcat(a: seq<Session>, b: seq<Session>, id: string)
    ensures SessionsWithout(a + b, id) == SessionsWithout(a, id) + SessionsWithout(b, id)
  {
    FilterConcat(a, b, (s: Session) => s.id != id);
  }

  lemma SchedulesWithoutConcat(a: seq<Schedule>, b: seq<Schedule>, id: string)
    ensures SchedulesWithout(a + b, id) == SchedulesWithout(a, id) + SchedulesWithout(b, id)
  {
    FilterConcat(a, b, (s: Schedule) => s.id != id);
  }

  lemma ClassesWithoutConcat(a: seq<Class>, b: seq<Class>, id: string)
    ensures ClassesWithout(a + b, id) == ClassesWithout(a, id) + ClassesWithout(b, id)
  {
    FilterConcat(a, b, (c: Class) => c.id != id);
  }

  /** Deleting an id no row carries leaves the table as it is. */
  lemma ClassesWithoutAbsent(classes: seq<Class>, id: string)
    requires forall c :: c in classes ==> c.id != id
    ensures ClassesWithout(classes, id) == classes
  {
    FilterAll(classes, (c: Class) => c.id != id);
  }

  /** The ids of the class's attendance sessions (`filter(...).map((a) => a.id)`). */
  function AttendanceIdsOfClass(attendances: seq<Attendance>, classId: string): (r: seq<string>)
    ensures forall id :: id in r <==> exists a :: a in attendances && a.classId == classId && a.id == id
  {
    var own := AttendancesOfClass(attendances, classId);
    var ids := seq(|own|, i requires 0 <= i < |own| => own[i].id);
    assert forall a :: a in attendances && a.classId == classId ==> a.id in ids by {
      forall a | a in attendances && a.classId == classId
        ensures a.id in ids
      {
        var i :| 0 <= i < |own| && own[i] == a;
        assert ids[i] == a.id;
      }
    }
    ids
  }

  /** The records `attendance.deleteByClassId` keeps: those of sessions not in the class. */
  function RecordsNotOfClass(records: seq<AttendanceRecord>, attendances: seq<Attendance>, classId: string): (r: seq<AttendanceRecord>)
    ensures forall i :: 0 <= i < |r| ==>
      r[i] in records && (forall a :: a in attendances && a.classId == classId ==> a.id != r[i].attendanceId)
    ensures forall x :: x in records && (forall a :: a in attendances && a.classId == classId ==> a.id != x.attendanceId) ==> x in r
  {
    var ids := AttendanceIdsOfClass(attendances, classId);
    Filter(records, (x: AttendanceRecord) => x.attendanceId !in ids)
  }

  function AttendancesNotOfClass(attendances: seq<Attendance>, classId: string): (r: seq<Attendance>)
    ensures forall i :: 0 <= i < |r| ==> r[i] in attendances && r[i].classId != classId
    ensures forall a :: a in attendances && a.classId != classId ==> a in r
  {
    Filter(attendances, (a: Attendance) => a.classId != classId)
  }

  /** What `users.create` receives: a user without id and creation date. */
  datatype NewUser = NewUser(username: string, password: string, fullName: string, email: string, role: string, classId: Option<string>)

  /** The user record `users.create` appends. */
  function FromNewUser(data: NewUser, id: string, now: Timestamp): (u: User)
    ensures u.id == id && u.createdAt == now && u.classId == data.classId
    ensures u.username == data.username && u.password == data.password && u.fullName == data.fullName
    ensures u.email == data.email && u.role == data.role
  {
    User(id, data.username, data.password, data.fullName, data.email, data.role, data.classId, now)
  }

  /** The seeded administrator account. */
  function AdminUser(now: Timestamp): User
  {
    User("admin-id", "admin", "admin", "Admin User", "admin@example.com", "admin", None, now)
  }

  // ------------------------------------------------------------------
  // The tables
  // ------------------------------------------------------------------

  class Database {
    var users: seq<User>
    var sessions: seq<Session>
    var classes: seq<Class>
    var schedules: seq<Schedule>
    var assignments: seq<Assignment>
    var submissions: seq<Submission>
    var attendances: seq<Attendance>
    var attendanceRecords: seq<AttendanceRecord>

    /** The store as the module starts: one administrator, every other table empty. */
    constructor (now: Timestamp)
      ensures users == [AdminUser(now)]
      ensures sessions == [] && classes == [] && schedules == [] && assignments == []
      ensures submissions == [] && attendances == [] && attendanceRecords == []
    {
      users := [AdminUser(now)];
      sessions, classes, schedules, assignments := [], [], [], [];
      submissions, attendances, attendanceRecords := [], [], [];
    }

    // users

    function FindStudentsByClassId(classId: string): seq<User>
      reads this
    {
      StudentsInClass(users, classId)
    }

    /** `users.create`: appends one user with the fresh id and returns that id. */
    method CreateUser(data: NewUser, id: string, now: Timestamp) returns (r: string)
      modifies this`users
      ensures users == old(users) + [FromNewUser(data, id, now)]
      ensures r == id
    {
      users := users + [FromNewUser(data, id, now)];
      r := id;
    }

    method UpdateUserById(id: string, p: UserPatch)
      modifies this`users
      ensures users == UpdateUser(old(users), id, p)
    {
      users := UpdateUser(users, id, p);
    }

    method RemoveFromClass(classId: string)
      modifies this`users
      ensures users == ClearClass(old(users), classId)
    {
      users := ClearClass(users, classId);
    }

    // sessions

    method CreateSession(s: Session) returns (r: string)
      modifies this`sessions
      ensures sessions == old(sessions) + [s] && r == s.id
    {
      sessions := sessions + [s];
      r := s.id;
    }

    method DeleteSession(id: string)
      modifies this`sessions
      ensures sessions == SessionsWithout(old(sessions), id)
    {
      sessions := SessionsWithout(sessions, id);
    }

    // classes

    method CreateClass(name: string, code: string, lecturerId: string, id: string, now: Timestamp) returns (r: string)
      modifies this`classes
      ensures classes == old(classes) + [Class(id, name, code, lecturerId, now)] && r == id
    {
      classes := classes + [Class(id, name, code, lecturerId, now)];
      r := id;
    }

    method DeleteClass(id: string)
      modifies this`classes
      ensures classes == ClassesWithout(old(classes), id)
    {
      classes := ClassesWithout(classes, id);
    }

    // schedules

    method CreateSchedule(classId: string, day: string, startTime: string, endTime: string, title: string, id: string, now: Timestamp)
      returns (r: string)
      modifies this`schedules
      ensures schedules == old(schedules) + [Schedule(id, classId, day, startTime, endTime, title, now)] && r == id
    {
      schedules := schedules + [Schedule(id, classId, day, startTime, endTime, title, now)];
      r := id;
    }

    method DeleteSchedule(id: string)
      modifies this`schedules
      ensures schedules == SchedulesWithout(old(schedules), id)
    {
      schedules := SchedulesWithout(schedules, id);
    }

    method DeleteSchedulesOfClass(classId: string)
      modifies this`schedules
      ensures schedules == SchedulesNotOfClass(old(schedules), classId)
    {
      schedules := SchedulesNotOfClass(schedules, classId);
    }

    // assignments

    method CreateAssignment(classId: string, title: string, dueDate: Timestamp, instructionsUrl: string, id: string, now: Timestamp)
      returns (r: string)
      modifies this`assignments
      ensures assignments == old(assignments) + [Assignment(id, classId, title, dueDate, instructionsUrl, now)] && r == id
    {
      assignments := assignments + [Assignment(id, classId, title, dueDate, instructionsUrl, now)];
      r := id;
    }

    method DeleteAssignment(id: string)
      modifies this`assignments
      ensures assignments == AssignmentsWithout(old(assignments), id)
    {
      assignments := AssignmentsWithout(assignments, id);
    }

    method DeleteAssignmentsOfClass(classId: string)
      modifies this`assignments
      ensures assignments == AssignmentsNotOfClass(old(assignments), classId)
    {
      assignments := AssignmentsNotOfClass(assignments, classId);
    }

    // submissions

    method CreateSubmission(assignmentId: string, studentId: string, submissionUrl: string, submittedAt: Timestamp, id: string)
      returns (r: string)
      modifies this`submissions
      ensures submissions == old(submissions) + [Submission(id, assignmentId, studentId, submissionUrl, Undefined, None, submittedAt, None)]
      ensures r == id
    {
      submissions := submissions + [Submission(id, assignmentId, studentId, submissionUrl, Undefined, None, submittedAt, None)];
      r := id;
    }

    method UpdateSubmissionById(id: string, p: SubmissionPatch)
      modifies this`submissions
      ensures submissions == UpdateSubmission(old(submissions), id, p)
    {
      submissions := UpdateSubmission(submissions, id, p);
    }

    // attendance

    method CreateAttendance(classId: string, title: string, date: Timestamp, id: string, now: Timestamp) returns (r: string)
      modifies this`attendances
      ensures attendances == old(attendances) + [Attendance(id, classId, title, date, now)] && r == id
    {
      attendances := attendances + [Attendance(id, classId, title, date, now)];
      r := id;
    }

    method CreateRecord(attendanceId: string, studentId: string, status: Status, id: string) returns (r: string)
      modifies this`attendanceRecords
      ensures attendanceRecords == old(attendanceRecords) + [AttendanceRecord(id, attendanceId, studentId, status)] && r == id
    {
      attendanceRecords := attendanceRecords + [AttendanceRecord(id, attendanceId, studentId, status)];
      r := id;
    }

    method UpdateRecordById(id: string, status: Option<Status>)
      modifies this`attendanceRecords
      ensures attendanceRecords == UpdateRecord(old(attendanceRecords), id, status)
    {
      attendanceRecords := UpdateRecord(attendanceRecords, id, status);
    }

    /** `attendance.deleteByClassId`: first the records of the class's sessions
        (found from the sessions as they were), then the sessions. */
    method DeleteAttendanceOfClass(classId: string)
      modifies this`attendances, this`attendanceRecords
      ensures attendanceRecords == RecordsNotOfClass(old(attendanceRecords), old(attendances), classId)
      ensures attendances == AttendancesNotOfClass(old(attendances), classId)
    {
      attendanceRecords := RecordsNotOfClass(attendanceRecords, attendances, classId);
      attendances := AttendancesNotOfClass(attendances, classId);
    }
  }
}
