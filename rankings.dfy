/** The class ranking shown to lecturers (app/lecturer/rankings/page.tsx) and
    to students (app/student/rankings/page.tsx). Per student: the mean of the
    graded submission scores, an attendance percentage in which a late record
    counts half, and a 70/30 blend of the two; each is rounded with
    `Math.round`. The list is then sorted in place, highest rounded overall
    score first, and the student page finds the viewer's 1-based position.
    Arithmetic is exact (`real`). */
module Rankings {
  import opened Common
  import opened Schema
  import opened Store
  import StableSort
  import opened DashboardGate

  // ------------------------------------------------------------------
  // Assignment average
  // ------------------------------------------------------------------

  /** `s.score !== undefined`: a SQL NULL score is kept. */
  predicate IsGraded(s: Submission)
  {
    s.score != Undefined
  }

  function Graded(submissions: seq<Submission>): (r: seq<Submission>)
    ensures forall i :: 0 <= i < |r| ==> r[i] in submissions && IsGraded(r[i])
    ensures forall s :: s in submissions && IsGraded(s) ==> s in r
  {
    Filter(submissions, IsGraded)
  }

  /** `s.score || 0`: a number counts as itself, a missing or null score as 0. */
  function ScoreOrZero(f: ScoreField): real
  {
    if f.Number? then f.value else 0.0
  }

  /** `reduce((sum, s) => sum + (s.score || 0), 0)`, folded from the left. */
  function SumScores(submissions: seq<Submission>): real
    decreases |submissions|
  {
    if |submissions| == 0 then 0.0
    else SumScores(submissions[..|submissions| - 1]) + ScoreOrZero(submissions[|submissions| - 1].score)
  }

  /** The mean of the graded scores, or 0 when nothing is graded: the result,
      times the number of graded submissions, is their sum. */
  function AverageScore(submissions: seq<Submission>): (r: real)
    ensures |Graded(submissions)| == 0 ==> r == 0.0
    ensures |Graded(submissions)| > 0 ==> r * (|Graded(submissions)| as real) == SumScores(Graded(submissions))
  {
    var g := Graded(submissions);
    if |g| > 0 then SumScores(g) / (|g| as real) else 0.0
  }

  /** Scores a lecturer can give lie in [0, 100]. */
  predicate ScoresInRange(submissions: seq<Submission>)
  {
    forall s :: s in submissions && s.score.Number? ==> 0.0 <= s.score.value <= 100.0
  }

  /** A total in [0, hi·n], divided by n > 0, lies in [0, hi]. */
  lemma QuotientBounds(total: real, n: real, hi: real)
    requires n > 0.0 && 0.0 <= total <= hi * n
    ensures 0.0 <= total / n <= hi
  {
    assert (total / n) * n == total;
    assert (hi - total / n) * n >= 0.0;
  }

  lemma {:induction false} SumScoresBounds(submissions: seq<Submission>)
    requires ScoresInRange(submissions)
    ensures 0.0 <= SumScores(submissions) <= 100.0 * (|submissions| as real)
    decreases |submissions|
  {
    if |submissions| > 0 {
      SumScoresBounds(submissions[..|submissions| - 1]);
    }
  }

  /** The graded submissions keep the scores' range. */
  lemma GradedInRange(submissions: seq<Submission>)
    requires ScoresInRange(submissions)
    ensures ScoresInRange(Graded(submissions))
  {
    var g := Graded(submissions);
    forall s | s in g
      ensures s in submissions
    {
      var i :| 0 <= i < |g| && g[i] == s;
    }
  }

  /** With every score in [0, 100], the average lies in [0, 100]. */
  lemma AverageScoreBounds(submissions: seq<Submission>)
    requires ScoresInRange(submissions)
    ensures 0.0 <= AverageScore(submissions) <= 100.0
  {
    var g := Graded(submissions);
    if |g| == 0 {
      assert AverageScore(submissions) == 0.0;
    } else {
      GradedInRange(submissions);
      SumScoresBounds(g);
      QuotientBounds(SumScores(g), |g| as real, 100.0);
    }
  }


  lemma SumScoresConcat(a: seq<Submission>, b: seq<Submission>)
    ensures SumScores(a + b) == SumScores(a) + SumScores(b)
    decreases |b|
  {
    if |b| == 0 {
      assert a + b == a;
    } else {
      assert (a + b)[..|a + b| - 1] == a + b[..|b| - 1];
      SumScoresConcat(a, b[..|b| - 1]);
    }
  }

  /** A submission not yet graded (`score` undefined) does not move the average. */
  lemma UngradedLeavesAverage(submissions: seq<Submission>, s: Submission)
    requires s.score == Undefined
    ensures AverageScore(submissions + [s]) == AverageScore(submissions)
  {
    FilterConcat(submissions, [s], IsGraded);
    assert Graded([s]) == [];
    assert Graded(submissions + [s]) == Graded(submissions);
  }

  /** A SQL-NULL score is kept by the filter and counts as 0: it pulls the
      average down. */
  lemma NullScoreCountsAsZero(s1: Submission, s2: Submission)
    requires s1.score == Number(90.0) && s2.score == Null
    ensures AverageScore([s1, s2]) == 45.0
  {
    FilterAll([s1, s2], IsGraded);
    assert [s1, s2][..1] == [s1];
    assert SumScores([s1]) == 90.0 by {
      assert [s1][..0] == [];
    }
  }

  // ------------------------------------------------------------------
  // Attendance percentage
  // ------------------------------------------------------------------

  /** `((present + late * 0.5) / sessions) * 100`, or 0 for a class without sessions. */
  function AttendancePercentage(present: nat, late: nat, sessions: nat): (r: real)
    ensures sessions == 0 ==> r == 0.0
    ensures sessions > 0 ==> r * (sessions as real) == (present as real + late as real * 0.5) * 100.0
  {
    if sessions > 0 then ((present as real + late as real * 0.5) / (sessions as real)) * 100.0 else 0.0
  }

  /** When present and late records together are at most the sessions, the percentage lies in [0, 100]. */
  lemma AttendancePercentageBounds(present: nat, late: nat, sessions: nat)
    requires present + late <= sessions
    ensures 0.0 <= AttendancePercentage(present, late, sessions) <= 100.0
  {
    if sessions > 0 {
      QuotientBounds(present as real + late as real * 0.5, sessions as real, 1.0);
    }
  }

  // ------------------------------------------------------------------
  // Overall score and rounding
  // ------------------------------------------------------------------

  /** 70% assignments, 30% attendance, on the unrounded components. */
  function OverallScore(average: real, attendance: real): real
  {
    average * 0.7 + attendance * 0.3
  }

  /** `Math.round`: the nearest integer, halves rounding up. */
  function Round(x: real): (r: int)
    ensures r as real - 0.5 <= x < r as real + 0.5
  {
    (x + 0.5).Floor
  }

  /** The integer `Math.round` picks is the only one within the half-open window. */
  lemma RoundUnique(x: real, k: int)
    requires k as real - 0.5 <= x < k as real + 0.5
    ensures Round(x) == k
  {
  }

  /** The blend of two values in [0, 100] lies in [0, 100], and so does its rounding. */
  lemma OverallScoreBounds(average: real, attendance: real)
    requires 0.0 <= average <= 100.0 && 0.0 <= attendance <= 100.0
    ensures 0.0 <= OverallScore(average, attendance) <= 100.0
    ensures 0 <= Round(OverallScore(average, attendance)) <= 100
  {
  }

  /** Rounding happens after weighting: rounding the average first would turn 59 into 60. */
  lemma RoundAfterWeighting()
    ensures Round(OverallScore(84.5, 0.0)) == 59
    ensures Round(OverallScore(Round(84.5) as real, 0.0)) == 60
  {
    RoundUnique(OverallScore(84.5, 0.0), 59);
    RoundUnique(84.5, 85);
    RoundUnique(OverallScore(85.0, 0.0), 60);
  }

  // ------------------------------------------------------------------
  // One student's row
  // ------------------------------------------------------------------

  datatype Ranking = Ranking(
    student: User,
    averageScore: int,
    attendancePercentage: int,
    overallScore: int,
    submittedAssignments: nat,
    totalAssignments: nat,
    presentSessions: nat,
    totalSessions: nat)

  /** The row for one student. `submissions` and `records` are the whole
      tables: the student's own are picked by student id only, across every
      class the student has been in. */
  function RankingFor(student: User, submissions: seq<Submission>, records: seq<AttendanceRecord>,
                      totalAssignments: nat, totalSessions: nat): (r: Ranking)
    ensures r.student == student
    ensures r.submittedAssignments == |SubmissionsOfStudent(submissions, student.id)|
    ensures r.totalAssignments == totalAssignments && r.totalSessions == totalSessions
    ensures r.presentSessions == |WithStatus(RecordsOfStudent(records, student.id), Present)|
    ensures var average := AverageScore(SubmissionsOfStudent(submissions, student.id));
            var attendance := AttendancePercentage(r.presentSessions,
                                |WithStatus(RecordsOfStudent(records, student.id), Late)|, totalSessions);
            && r.averageScore == Round(average)
            && r.attendancePercentage == Round(attendance)
            && r.overallScore == Round(OverallScore(average, attendance))
  {
    var mine := SubmissionsOfStudent(submissions, student.id);
    var own := RecordsOfStudent(records, student.id);
    var present := |WithStatus(own, Present)|;
    var late := |WithStatus(own, Late)|;
    var average := AverageScore(mine);
    var attendance := AttendancePercentage(present, late, totalSessions);
    Ranking(student, Round(average), Round(attendance), Round(OverallScore(average, attendance)),
            |mine|, totalAssignments, present, totalSessions)
  }

  /** A student with nothing graded and neither present nor late records scores 0 everywhere. */
  lemma NoActivityScoresZero(student: User, submissions: seq<Submission>, records: seq<AttendanceRecord>,
                             totalAssignments: nat, totalSessions: nat)
    requires |Graded(SubmissionsOfStudent(submissions, student.id))| == 0
    requires |WithStatus(RecordsOfStudent(records, student.id), Present)| == 0
    requires |WithStatus(RecordsOfStudent(records, student.id), Late)| == 0
    ensures var r := RankingFor(student, submissions, records, totalAssignments, totalSessions);
      r.averageScore == 0 && r.attendancePercentage == 0 && r.overallScore == 0
  {
    RoundUnique(0.0, 0);
  }

  /** With scores in [0, 100] and no more of the student's records than the
      class has sessions, all three percentages lie in [0, 100]. */
  lemma RankingBounds(student: User, submissions: seq<Submission>, records: seq<AttendanceRecord>,
                      totalAssignments: nat, totalSessions: nat)
    requires ScoresInRange(SubmissionsOfStudent(submissions, student.id))
    requires |RecordsOfStudent(records, student.id)| <= totalSessions
    ensures var r := RankingFor(student, submissions, records, totalAssignments, totalSessions);
      && 0 <= r.averageScore <= 100
      && 0 <= r.attendancePercentage <= 100
      && 0 <= r.overallScore <= 100
  {
    var mine := SubmissionsOfStudent(submissions, student.id);
    var own := RecordsOfStudent(records, student.id);
    var present, late := |WithStatus(own, Present)|, |WithStatus(own, Late)|;
    AverageScoreBounds(mine);
    PresentAndLateBound(own);
    AttendancePercentageBounds(present, late, totalSessions);
    OverallScoreBounds(AverageScore(mine), AttendancePercentage(present, late, totalSessions));
  }

  /** The premise of `RankingBounds` is not guaranteed: the student's records
      of an earlier class count too. Two present records and a class with one
      session so far give an attendance of 200%. */
  lemma AttendanceAboveHundred(student: User, r1: AttendanceRecord, r2: AttendanceRecord)
    requires r1.studentId == student.id && r1.status == Present
    requires r2.studentId == student.id && r2.status == Present
    ensures RankingFor(student, [], [r1, r2], 0, 1).attendancePercentage == 200
  {
    assert RecordsOfStudent([r1, r2], student.id) == [r1, r2];
    assert WithStatus([r1, r2], Present) == [r1, r2];
    FilterNone([r1, r2], (x: AttendanceRecord) => x.status == Late);
    RoundUnique(200.0, 200);
  }

  /** A present record of the student raises `presentSessions` by one whatever
      session (of whatever class) it belongs to; a late record leaves it as it is. */
  lemma RecordCounting(student: User, submissions: seq<Submission>, records: seq<AttendanceRecord>,
                       totalAssignments: nat, totalSessions: nat, x: AttendanceRecord)
    requires x.studentId == student.id
    ensures x.status == Present ==>
      RankingFor(student, submissions, records + [x], totalAssignments, totalSessions).presentSessions
      == RankingFor(student, submissions, records, totalAssignments, totalSessions).presentSessions + 1
    ensures x.status == Late ==>
      RankingFor(student, submissions, records + [x], totalAssignments, totalSessions).presentSessions
      == RankingFor(student, submissions, records, totalAssignments, totalSessions).presentSessions
  {
    RecordsOfStudentConcat(records, [x], student.id);
    var own := RecordsOfStudent(records, student.id);
    assert RecordsOfStudent([x], student.id) == [x];
    FilterConcat(own, [x], (y: AttendanceRecord) => y.status == Present);
  }

  /** Every submission counts towards `submittedAssignments`, graded or not. */
  lemma SubmissionCounting(student: User, submissions: seq<Submission>, records: seq<AttendanceRecord>,
                           totalAssignments: nat, totalSessions: nat, s: Submission)
    requires s.studentId == student.id
    ensures RankingFor(student, submissions + [s], records, totalAssignments, totalSessions).submittedAssignments
      == RankingFor(student, submissions, records, totalAssignments, totalSessions).submittedAssignments + 1
  {
    SubmissionsOfStudentConcat(submissions, [s], student.id);
    assert SubmissionsOfStudent([s], student.id) == [s];
  }

  /** The worked example: scores 80 and 100, 7 present and 2 late out of 10
      sessions give 90, 80 and 87. */
  lemma WorkedExample(student: User, s1: Submission, s2: Submission, records: seq<AttendanceRecord>)
    requires s1.studentId == student.id && s1.score == Number(80.0)
    requires s2.studentId == student.id && s2.score == Number(100.0)
    requires |WithStatus(RecordsOfStudent(records, student.id), Present)| == 7
    requires |WithStatus(RecordsOfStudent(records, student.id), Late)| == 2
    ensures var r := RankingFor(student, [s1, s2], records, 3, 10);
      r.averageScore == 90 && r.attendancePercentage == 80 && r.overallScore == 87
      && r.submittedAssignments == 2 && r.presentSessions == 7
  {
    var subs := [s1, s2];
    assert SubmissionsOfStudent(subs, student.id) == subs;
    TwoScoresAverage(s1, s2);
    WorkedExampleScores();
  }

  /** Scores 80 and 100, both graded, average to 90. */
  lemma TwoScoresAverage(s1: Submission, s2: Submission)
    requires s1.score == Number(80.0) && s2.score == Number(100.0)
    ensures AverageScore([s1, s2]) == 90.0
  {
    var subs := [s1, s2];
    FilterAll(subs, IsGraded);
    assert subs[..1] == [s1];
    assert SumScores([s1]) == 80.0 by {
      assert [s1][..0] == [];
    }
    assert Graded(subs) == subs;
    assert SumScores(subs) == 180.0;
  }

  /** The arithmetic of the worked example: 7 present and 2 late of 10 is 80%,
      and the blend of 90 and 80 rounds to 87. */
  lemma WorkedExampleScores()
    ensures AttendancePercentage(7, 2, 10) == 80.0
    ensures Round(90.0) == 90 && Round(80.0) == 80 && Round(OverallScore(90.0, 80.0)) == 87
  {
    RoundUnique(90.0, 90);
    RoundUnique(80.0, 80);
    RoundUnique(OverallScore(90.0, 80.0), 87);
  }

  // ------------------------------------------------------------------
  // The list and its order
  // ------------------------------------------------------------------

  /** `students.map(...)`: one row per student, in the order the students came. */
  function Rows(students: seq<User>, submissions: seq<Submission>, records: seq<AttendanceRecord>,
                totalAssignments: nat, totalSessions: nat): (r: seq<Ranking>)
    ensures |r| == |students|
    ensures forall i :: 0 <= i < |r| ==> r[i].student == students[i]
    ensures forall i :: 0 <= i < |r| ==> r[i] == RankingFor(students[i], submissions, records, totalAssignments, totalSessions)
  {
    seq(|students|, i requires 0 <= i < |students| =>
      RankingFor(students[i], submissions, records, totalAssignments, totalSessions))
  }

  /** The comparator `(a, b) => b.overallScore - a.overallScore` orders by the
      negated rounded overall score, ascending. */
  function RankKey(r: Ranking): int
  {
    -r.overallScore
  }

  /** `rankings.sort(...)`: highest rounded overall score first, a permutation
      of the rows, rows with equal scores in their original order. */
  method SortRankings(rows: seq<Ranking>) returns (sorted: seq<Ranking>)
    ensures |sorted| == |rows|
    ensures forall i, j :: 0 <= i < j < |sorted| ==> sorted[i].overallScore >= sorted[j].overallScore
    ensures multiset(sorted) == multiset(rows)
    ensures StableSort.SameKeyOrder(sorted, rows, RankKey)
  {
    var a := new Ranking[|rows|](i requires 0 <= i < |rows| => rows[i]);
    assert a[..] == rows;
    StableSort.SortByKey(a, RankKey);
    sorted := a[..];
    assert forall i, j :: 0 <= i < j < |sorted| ==> RankKey(sorted[i]) <= RankKey(sorted[j]);
  }

  /** The sorted list is determined by its rows: any non-increasing, stable
      reordering of them is the one the page shows. */
  lemma SortedRankingsUnique(s: seq<Ranking>, t: seq<Ranking>, rows: seq<Ranking>)
    requires forall i, j :: 0 <= i < j < |s| ==> s[i].overallScore >= s[j].overallScore
    requires forall i, j :: 0 <= i < j < |t| ==> t[i].overallScore >= t[j].overallScore
    requires StableSort.SameKeyOrder(s, rows, RankKey) && StableSort.SameKeyOrder(t, rows, RankKey)
    ensures s == t
  {
    StableSort.SortedSameKeyOrderUnique(s, t, RankKey);
  }

  /** The rows both pages compute for a class, before sorting. */
  function ClassRows(db: Database, classId: string): (r: seq<Ranking>)
    reads db
    ensures |r| == |StudentsInClass(db.users, classId)|
    ensures forall i :: 0 <= i < |r| ==>
      r[i] == RankingFor(StudentsInClass(db.users, classId)[i], db.submissions, db.attendanceRecords,
                         |AssignmentsOfClass(db.assignments, classId)|, |AttendancesOfClass(db.attendances, classId)|)
  {
    Rows(StudentsInClass(db.users, classId), db.submissions, db.attendanceRecords,
         |AssignmentsOfClass(db.assignments, classId)|, |AttendancesOfClass(db.attendances, classId)|)
  }

  /** Lines 20-60 of either page: the class's students, their rows, sorted. */
  method ClassRankings(db: Database, classId: string) returns (rankings: seq<Ranking>)
    ensures |rankings| == |StudentsInClass(db.users, classId)|
    ensures forall i, j :: 0 <= i < j < |rankings| ==> rankings[i].overallScore >= rankings[j].overallScore
    ensures multiset(rankings) == multiset(ClassRows(db, classId))
    ensures StableSort.SameKeyOrder(rankings, ClassRows(db, classId), RankKey)
    ensures |StudentsInClass(db.users, classId)| == 0 ==> rankings == []
  {
    rankings := SortRankings(ClassRows(db, classId));
  }

  /** `rankings.find(...)` and `rankings.findIndex(...) + 1` for the viewer. */
  function Standing(rankings: seq<Ranking>, viewerId: string): (r: (Option<Ranking>, int))
    ensures r.0.Some? <==> exists i :: 0 <= i < |rankings| && rankings[i].student.id == viewerId
    ensures r.0.Some? ==> 1 <= r.1 <= |rankings| && rankings[r.1 - 1] == r.0.value
                          && rankings[r.1 - 1].student.id == viewerId
                          && forall j :: 0 <= j < r.1 - 1 ==> rankings[j].student.id != viewerId
    ensures r.0.None? ==> r.1 == 0
  {
    var isViewer := (x: Ranking) => x.student.id == viewerId;
    (Find(rankings, isViewer), FindIndex(rankings, isViewer) + 1)
  }

  /** app/lecturer/rankings/page.tsx, lines 10-60. */
  method LecturerRankings(db: Database, session: Option<User>) returns (access: Access, rankings: seq<Ranking>)
    ensures access == ClassPageAccess(session, "lecturer", "/lecturer/dashboard")
    ensures access.Away? ==> rankings == []
    ensures access.Proceed? ==> forall i, j :: 0 <= i < j < |rankings| ==> rankings[i].overallScore >= rankings[j].overallScore
    ensures access.Proceed? ==> multiset(rankings) == multiset(ClassRows(db, access.classId))
    ensures access.Proceed? ==> StableSort.SameKeyOrder(rankings, ClassRows(db, access.classId), RankKey)
  {
    access := ClassPageAccess(session, "lecturer", "/lecturer/dashboard");
    rankings := [];
    if access.Proceed? {
      rankings := ClassRankings(db, access.classId);
    }
  }

  /** app/student/rankings/page.tsx, lines 10-64: the sorted list and the
      viewer's own row and position (0 when the viewer is not in it). */
  method StudentRankings(db: Database, session: Option<User>)
    returns (access: Access, rankings: seq<Ranking>, myRanking: Option<Ranking>, myPosition: int)
    ensures access == ClassPageAccess(session, "student", "/student/dashboard")
    ensures access.Away? ==> rankings == [] && myRanking.None? && myPosition == 0
    ensures access.Proceed? ==> forall i, j :: 0 <= i < j < |rankings| ==> rankings[i].overallScore >= rankings[j].overallScore
    ensures access.Proceed? ==> multiset(rankings) == multiset(ClassRows(db, access.classId))
    ensures access.Proceed? ==> StableSort.SameKeyOrder(rankings, ClassRows(db, access.classId), RankKey)
    ensures myRanking.Some? ==> 1 <= myPosition <= |rankings| && rankings[myPosition - 1] == myRanking.value
                                && myRanking.value.student.id == session.value.id
    ensures myRanking.None? ==> myPosition == 0
    ensures myRanking.None? && access.Proceed? ==>
      forall i :: 0 <= i < |rankings| ==> rankings[i].student.id != session.value.id
  {
    access := ClassPageAccess(session, "student", "/student/dashboard");
    rankings, myRanking, myPosition := [], None, 0;
    if access.Proceed? {
      rankings := ClassRankings(db, access.classId);
      var standing := Standing(rankings, session.value.id);
      myRanking, myPosition := standing.0, standing.1;
    }
  }
}
