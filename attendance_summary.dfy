/** The student attendance page (app/student/attendance/page.tsx): one entry
    per attendance session of the student's class, carrying the status of the
    student's record for that session (absent when there is none), and four
    counters — sessions, present, late and absent.

    The page counts present and late over ALL of the student's records, also
    those of sessions of another class, while the sessions are those of the
    current class; its absent counter can then go below zero. `SummaryAsWritten`
    is that computation and `StudentAttendance` the page as written;
    `AbsentCanBeNegative` is the input that shows the discrepancy. `SummaryOf`
    is the corrected computation, over the entries, and
    `StudentAttendanceCorrected` the page that uses it. `OwnRecordsAgree` shows
    that the two agree whenever every record of the student belongs to a
    distinct session of the current class. */
module AttendanceSummary {
  import opened Common
  import opened Schema
  import opened Store
  import opened DashboardGate

  /** A session with the status shown for it. */
  datatype Entry = Entry(attendance: Attendance, status: Status)

  /** `r.attendanceId === attendance.id` */
  function ForSession(attendanceId: string): AttendanceRecord -> bool
  {
    (r: AttendanceRecord) => r.attendanceId == attendanceId
  }

  /** `myRecords.find(...)?.status || "absent"`: the status of the first record
      of that session, or absent when the student has none. */
  function StatusFor(a: Attendance, myRecords: seq<AttendanceRecord>): (r: Status)
    ensures (forall j :: 0 <= j < |myRecords| ==> myRecords[j].attendanceId != a.id) ==> r == Absent
    ensures forall i :: 0 <= i < |myRecords| && myRecords[i].attendanceId == a.id
                        && (forall j :: 0 <= j < i ==> myRecords[j].attendanceId != a.id)
                        ==> r == myRecords[i].status
    ensures r != Absent ==> exists j :: 0 <= j < |myRecords| && myRecords[j].attendanceId == a.id && myRecords[j].status == r
  {
    var i := FindIndex(myRecords, ForSession(a.id));
    if i < 0 then Absent else myRecords[i].status
  }

  /** `attendances.map(...)`: the sessions in their order, each with its status. */
  function Entries(attendances: seq<Attendance>, myRecords: seq<AttendanceRecord>): (r: seq<Entry>)
    ensures |r| == |attendances|
    ensures forall i :: 0 <= i < |r| ==> r[i].attendance == attendances[i]
    ensures forall i :: 0 <= i < |r| ==> r[i].status == StatusFor(attendances[i], myRecords)
    ensures forall i :: 0 <= i < |r| && r[i].status != Absent ==>
              exists j :: 0 <= j < |myRecords| && myRecords[j].attendanceId == attendances[i].id
                          && myRecords[j].status == r[i].status
  {
    seq(|attendances|, i requires 0 <= i < |attendances| => Entry(attendances[i], StatusFor(attendances[i], myRecords)))
  }

  /** The four counters of the page. */
  datatype Summary = Summary(total: nat, present: nat, late: nat, absent: int)

  /** The counters as the page computes them: present and late over every
      record of the student, absent as what is left of the sessions. */
  function SummaryAsWritten(attendances: seq<Attendance>, myRecords: seq<AttendanceRecord>): (r: Summary)
    ensures r.total == |attendances|
    ensures r.present == |WithStatus(myRecords, Present)| && r.late == |WithStatus(myRecords, Late)|
    ensures r.present + r.late <= |myRecords|
    ensures r.present + r.late + r.absent == r.total
  {
    PresentAndLateBound(myRecords);
    var present := |WithStatus(myRecords, Present)|;
    var late := |WithStatus(myRecords, Late)|;
    Summary(|attendances|, present, late, |attendances| - present - late)
  }

  /** A student who has moved to a class without sessions, with one "present"
      record from the previous class, is shown an absent count of -1. */
  lemma AbsentCanBeNegative(old_session: Attendance, record: AttendanceRecord)
    requires record.attendanceId == old_session.id && record.status == Present
    ensures SummaryAsWritten([], [record]).absent == -1
    ensures SummaryOf(Entries([], [record])).absent == 0
  {
    assert WithStatus([record], Present) == [record];
    assert WithStatus([record], Late) == [];
  }

  /** `e.status === s` */
  function HasStatus(s: Status): Entry -> bool
  {
    (e: Entry) => e.status == s
  }

  /** How many entries show the given status: as many as `filter` keeps. */
  function CountStatus(entries: seq<Entry>, s: Status): (r: nat)
    ensures r <= |entries|
    ensures r == |Filter(entries, HasStatus(s))|
    decreases |entries|
  {
    if |entries| == 0 then 0
    else (if entries[0].status == s then 1 else 0) + CountStatus(entries[1..], s)
  }

  /** Every entry shows exactly one of the three statuses. */
  lemma {:induction false} StatusCountsPartition(entries: seq<Entry>)
    ensures CountStatus(entries, Present) + CountStatus(entries, Late) + CountStatus(entries, Absent) == |entries|
    decreases |entries|
  {
    if |entries| > 0 {
      StatusCountsPartition(entries[1..]);
    }
  }

  /** The corrected counters: all four over the entries of the current
      class's sessions. */
  function SummaryOf(entries: seq<Entry>): (r: Summary)
    ensures r.total == |entries|
    ensures r.present + r.late + r.absent == r.total
    ensures 0 <= r.absent <= r.total
    ensures r.present == CountStatus(entries, Present) && r.late == CountStatus(entries, Late)
  {
    StatusCountsPartition(entries);
    Summary(|entries|, CountStatus(entries, Present), CountStatus(entries, Late), CountStatus(entries, Absent))
  }

  /** The ids of the sessions. */
  function SessionIds(attendances: seq<Attendance>): (r: set<string>)
    ensures forall x :: x in r <==> exists i :: 0 <= i < |attendances| && attendances[i].id == x
    decreases |attendances|
  {
    if |attendances| == 0 then {}
    else {attendances[0].id} + SessionIds(attendances[1..])
  }

  /** How many of the records belong to one of the sessions `ids` and have status s. */
  function RecordCount(records: seq<AttendanceRecord>, ids: set<string>, s: Status): (r: nat)
    ensures r <= |records|
    decreases |records|
  {
    if |records| == 0 then 0
    else (if records[0].attendanceId in ids && records[0].status == s then 1 else 0)
         + RecordCount(records[1..], ids, s)
  }

  /** Over records that all belong to the sessions, the count is that of `WithStatus`. */
  lemma {:induction false} RecordCountAll(records: seq<AttendanceRecord>, ids: set<string>, s: Status)
    requires forall j :: 0 <= j < |records| ==> records[j].attendanceId in ids
    ensures RecordCount(records, ids, s) == |WithStatus(records, s)|
    decreases |records|
  {
    if |records| > 0 {
      RecordCountAll(records[1..], ids, s);
    }
  }

  /** No session, no record counted. */
  lemma {:induction false} RecordCountNone(records: seq<AttendanceRecord>, s: Status)
    ensures RecordCount(records, {}, s) == 0
    decreases |records|
  {
    if |records| > 0 {
      RecordCountNone(records[1..], s);
    }
  }

  /** Counting over two disjoint sets of sessions is counting over each. */
  lemma {:induction false} RecordCountSplit(records: seq<AttendanceRecord>, id: string, ids: set<string>, s: Status)
    requires id !in ids
    ensures RecordCount(records, {id} + ids, s) == RecordCount(records, {id}, s) + RecordCount(records, ids, s)
    decreases |records|
  {
    if |records| > 0 {
      RecordCountSplit(records[1..], id, ids, s);
    }
  }

  /** With at most one record per session, a session's record count for a
      shown status is 1 exactly when its entry shows that status. */
  lemma {:induction false} RecordCountOne(records: seq<AttendanceRecord>, a: Attendance, s: Status)
    requires s != Absent
    requires forall j, k :: 0 <= j < k < |records| ==> records[j].attendanceId != records[k].attendanceId
    ensures RecordCount(records, {a.id}, s) == if StatusFor(a, records) == s then 1 else 0
    decreases |records|
  {
    if |records| > 0 {
      var rest := records[1..];
      RecordCountOne(rest, a, s);
      if records[0].attendanceId == a.id {
        assert forall j :: 0 <= j < |rest| ==> rest[j].attendanceId != a.id by {
          forall j | 0 <= j < |rest|
            ensures rest[j].attendanceId != a.id
          {
            assert records[j + 1] == rest[j];
          }
        }
      } else {
        assert StatusFor(a, records) == StatusFor(a, rest) by {
          if i :| 0 <= i < |rest| && rest[i].attendanceId == a.id {
            var k := FindIndex(rest, ForSession(a.id));
            assert records[k + 1] == rest[k];
            forall j | 0 <= j < k + 1
              ensures records[j].attendanceId != a.id
            {
              if j > 0 {
                assert records[j] == rest[j - 1];
              }
            }
          } else {
            forall j | 0 <= j < |records|
              ensures records[j].attendanceId != a.id
            {
              if j > 0 {
                assert records[j] == rest[j - 1];
              }
            }
          }
        }
      }
    }
  }

  /** Over distinct sessions and at most one record per session, the entries
      showing a status other than absent are as many as the records of those
      sessions with that status. */
  lemma {:induction false} EntriesCountRecords(attendances: seq<Attendance>, myRecords: seq<AttendanceRecord>, s: Status)
    requires s != Absent
    requires forall i, j :: 0 <= i < j < |attendances| ==> attendances[i].id != attendances[j].id
    requires forall j, k :: 0 <= j < k < |myRecords| ==> myRecords[j].attendanceId != myRecords[k].attendanceId
    ensures CountStatus(Entries(attendances, myRecords), s) == RecordCount(myRecords, SessionIds(attendances), s)
    decreases |attendances|
  {
    if |attendances| == 0 {
      RecordCountNone(myRecords, s);
    } else {
      var a, rest := attendances[0], attendances[1..];
      var entries := Entries(attendances, myRecords);
      assert entries[1..] == Entries(rest, myRecords);
      EntriesCountRecords(rest, myRecords, s);
      RecordCountOne(myRecords, a, s);
      assert a.id !in SessionIds(rest) by {
        forall i | 0 <= i < |rest|
          ensures rest[i].id != a.id
        {
          assert attendances[i + 1] == rest[i];
        }
      }
      RecordCountSplit(myRecords, a.id, SessionIds(rest), s);
    }
  }

  /** When every record of the student belongs to a session of the class and
      no session has two of them, in whatever order the records come, the
      page's counters are the corrected ones. Sessions without a record are
      allowed: they show absent on both sides. */
  lemma OwnRecordsAgree(attendances: seq<Attendance>, myRecords: seq<AttendanceRecord>)
    requires forall i, j :: 0 <= i < j < |attendances| ==> attendances[i].id != attendances[j].id
    requires forall j :: 0 <= j < |myRecords| ==>
               exists i :: 0 <= i < |attendances| && myRecords[j].attendanceId == attendances[i].id
    requires forall j, k :: 0 <= j < k < |myRecords| ==> myRecords[j].attendanceId != myRecords[k].attendanceId
    ensures SummaryAsWritten(attendances, myRecords) == SummaryOf(Entries(attendances, myRecords))
  {
    var ids := SessionIds(attendances);
    EntriesCountRecords(attendances, myRecords, Present);
    EntriesCountRecords(attendances, myRecords, Late);
    RecordCountAll(myRecords, ids, Present);
    RecordCountAll(myRecords, ids, Late);
  }

  /** What the page renders: the guard's outcome, the entries and the counters. */
  datatype AttendanceView = AttendanceView(access: Access, entries: seq<Entry>, summary: Summary)

  /** The page as written: the guard, then the class's sessions with the
      student's statuses, and the counters of `SummaryAsWritten`. */
  function StudentAttendance(db: Database, session: Option<User>): (r: AttendanceView)
    reads db
    ensures r.access == ClassPageAccess(session, "student", "/student/dashboard")
    ensures r.access.Away? ==> r.entries == [] && r.summary == Summary(0, 0, 0, 0)
    ensures r.access.Proceed? ==>
      var sessions := AttendancesOfClass(db.attendances, r.access.classId);
      var mine := RecordsOfStudent(db.attendanceRecords, session.value.id);
      && |r.entries| == |sessions|
      && (forall i :: 0 <= i < |r.entries| ==>
            && r.entries[i].attendance == sessions[i]
            && r.entries[i].attendance.classId == r.access.classId
            && r.entries[i].status == StatusFor(sessions[i], mine))
      && r.summary.total == |sessions|
      && r.summary.present == |WithStatus(mine, Present)|
      && r.summary.late == |WithStatus(mine, Late)|
      && r.summary.absent == |sessions| - r.summary.present - r.summary.late
  {
    var access := ClassPageAccess(session, "student", "/student/dashboard");
    if access.Away? then AttendanceView(access, [], Summary(0, 0, 0, 0))
    else
      var sessions := AttendancesOfClass(db.attendances, access.classId);
      var mine := RecordsOfStudent(db.attendanceRecords, session.value.id);
      AttendanceView(access, Entries(sessions, mine), SummaryAsWritten(sessions, mine))
  }

  /** The corrected page: the same entries, with the counters taken over them. */
  function StudentAttendanceCorrected(db: Database, session: Option<User>): (r: AttendanceView)
    reads db
    ensures r.access == ClassPageAccess(session, "student", "/student/dashboard")
    ensures r.entries == StudentAttendance(db, session).entries
    ensures r.access.Away? ==> r.summary == Summary(0, 0, 0, 0)
    ensures r.access.Proceed? ==>
      && r.summary.total == |r.entries|
      && r.summary.present == CountStatus(r.entries, Present)
      && r.summary.late == CountStatus(r.entries, Late)
      && r.summary.absent == CountStatus(r.entries, Absent)
      && 0 <= r.summary.absent <= r.summary.total
      && r.summary.present + r.summary.late + r.summary.absent == r.summary.total
  {
    var page := StudentAttendance(db, session);
    if page.access.Away? then page
    else
      StatusCountsPartition(page.entries);
      AttendanceView(page.access, page.entries, SummaryOf(page.entries))
  }

  /** The page as written shows the corrected counters when every record of
      the student is for a distinct session of the current class, which holds
      for a student who never changed class. */
  lemma PageAgreesWithoutOtherClasses(db: Database, session: Option<User>)
    requires StudentAttendance(db, session).access.Proceed?
    requires var sessions := AttendancesOfClass(db.attendances, StudentAttendance(db, session).access.classId);
             forall i, j :: 0 <= i < j < |sessions| ==> sessions[i].id != sessions[j].id
    requires var sessions := AttendancesOfClass(db.attendances, StudentAttendance(db, session).access.classId);
             var mine := RecordsOfStudent(db.attendanceRecords, session.value.id);
             && (forall j :: 0 <= j < |mine| ==> exists i :: 0 <= i < |sessions| && mine[j].attendanceId == sessions[i].id)
             && (forall j, k :: 0 <= j < k < |mine| ==> mine[j].attendanceId != mine[k].attendanceId)
    ensures StudentAttendance(db, session) == StudentAttendanceCorrected(db, session)
  {
    var page := StudentAttendance(db, session);
    var sessions := AttendancesOfClass(db.attendances, page.access.classId);
    var mine := RecordsOfStudent(db.attendanceRecords, session.value.id);
    OwnRecordsAgree(sessions, mine);
  }
}
