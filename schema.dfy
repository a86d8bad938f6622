/** The records of the learning platform's tables (lib/db.ts and lib/db-mysql.ts
    declare the same shapes). Dates are timestamps passed in from outside;
    optional fields are `Option`s. */
module Schema {
  import opened Common

  /** A point in time (`Date`); the model never reads the clock itself. */
  type Timestamp = nat

  /** The three states of an attendance record. */
  datatype Status = Present | Absent | Late

  /** A submission's score as it reaches the pages: the property may be missing
      (the in-memory store leaves it `undefined` until grading), SQL may hand back
      `NULL`, or it is a number. */
  datatype ScoreField = Undefined | Null | Number(value: real)

  datatype User = User(
    id: string,
    username: string,
    password: string,
    fullName: string,
    email: string,
    role: string,
    classId: Option<string>,
    createdAt: Timestamp)

  datatype Session = Session(id: string, userId: string, createdAt: Timestamp)

  datatype Class = Class(id: string, name: string, code: string, lecturerId: string, createdAt: Timestamp)

  datatype Schedule = Schedule(
    id: string,
    classId: string,
    day: string,
    startTime: string,
    endTime: string,
    title: string,
    createdAt: Timestamp)

  datatype Assignment = Assignment(
    id: string,
    classId: string,
    title: string,
    dueDate: Timestamp,
    instructionsUrl: string,
    createdAt: Timestamp)

  datatype Submission = Submission(
    id: string,
    assignmentId: string,
    studentId: string,
    submissionUrl: string,
    score: ScoreField,
    feedback: Option<string>,
    submittedAt: Timestamp,
    gradedAt: Option<Timestamp>)

  /** One attendance session of a class (the `attendance` table). */
  datatype Attendance = Attendance(id: string, classId: string, title: string, date: Timestamp, createdAt: Timestamp)

  datatype AttendanceRecord = AttendanceRecord(id: string, attendanceId: string, studentId: string, status: Status)

  /** JavaScript truthiness of an optional string: missing and "" are falsy. */
  predicate Truthy(s: Option<string>)
  {
    s.Some? && s.value != ""
  }
}
