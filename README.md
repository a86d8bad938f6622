# Learning platform — a verified Dafny model

This project models the core logic of a small learning-management web application. In the application:

- lecturers create one class each;
- students join it with a five-digit code;
- lecturers post schedules, assignments and attendance sessions;
- students submit work and see a class ranking.

The model covers these parts:

- **The in-memory store** (`lib/db.ts`): one class `Store.Database` with a sequence field per table. Its methods append, merge at the first matching index, or filter, as the store's functions do. Pure functions describe the same table transforms.
- **The server actions** (`lib/actions.ts`) over that store: login, registration, creating, joining, leaving and deleting a class, creating attendance, grading, and updating an attendance record. `createAttendance` keeps its loop over the students.
- **The SQL side** (`lib/db-mysql.ts`):
  - the SET lists that `users.update` and `submissions.update` build by conditional pushes;
  - the single statement of `attendance.updateRecord`;
  - the NULL handling of `users.create`;
  - the `rows[0] || null` lookups.
- **The ranking pages** of lecturers and students (`Rankings`):
  - a mean of the graded scores;
  - an attendance percentage in which a late record counts half;
  - a 70/30 blend, rounded with `Math.round`;
  - then an in-place stable sort by rounded overall score, and the viewer's 1-based position.
- **The student attendance page** (`AttendanceSummary`).
- **The weekday order** of the schedule list and the student schedule page (`ScheduleOrder`). Both sort in place and stably. The key is the day's position in Monday..Friday, and −1 for any other day.
- **The simulated blob store** (`BlobStorage`): a map from paths to files, and the `/api/files/` URL round trip.
- **The help centre chat** (`Chatbot`):
  - a priority-ordered substring dispatcher, proved equal to a rule table;
  - the chat window's state and its send handler;
  - the quick questions.
- **The administrator's user and class tables** (`AdminTables`).
- **The dashboard layout's role gate and the home-page redirect** (`DashboardGate`).

Shared pieces:

- `Common`: `find`, `findIndex`, `filter` and a first-index update.
- `Text`: lower-casing, `indexOf`/`includes`, `replace` with a string pattern, `join`, `trim`, and decimal strings.
- `StableSort`: a generic in-place stable sort by an integer key, as `Array.prototype.sort` with a `key(a) - key(b)` comparator guarantees. It is proved sorted, a permutation and stable. The proof also shows that the sorted, stable rearrangement is unique.

Things that come from outside are parameters: fresh ids, timestamps, the `Math.random()` draw, and the signed-in session (`Option<User>`). Arithmetic is exact (`real`).

Two points about the source that shape the model:

- The ranking pages sort on the rounded overall score (`b.overallScore - a.overallScore`).
- `lib/actions.ts` imports the SQL store. The actions are modelled against the in-memory store `lib/db.ts`, which has the same interface. The SQL store's own contribution (which columns an update writes) is modelled separately in `SqlBuilders`. `AdminTables.ClearedFieldsNotWritten` connects the two stores where they differ.

## Model

| member | source | states |
|---|---|---|
| Store.UserById | lib/db.ts:97-99 | the user found has the id; none is found exactly when no user has it |
| Store.UserByUsername | lib/db.ts:100-102 | the user found has the username; none exactly when no user has it |
| Store.UserByEmail | lib/db.ts:103-105 | the user found has the e-mail; none exactly when no user has it |
| Store.UserBySession | lib/db.ts:106-110 | no session with the id gives none; otherwise the result is the user of the first session with the id, looked up by id |
| Store.StudentsInClass | lib/db.ts:111-113 | exactly the users with that class and role student |
| Store.StudentsInClassConcat | lib/db.ts:111-113 | the students of a concatenated table are those of each part, in order |
| Store.VerifyPassword | lib/db.ts:141-144 | true iff the first user with the id exists and has that password |
| Store.ClassById | lib/db.ts:156-158 | the class found has the id; none exactly when no class has it |
| Store.ClassByCode | lib/db.ts:159-161 | the class found has the code; none exactly when no class has it |
| Store.ClassOfLecturer | lib/db.ts:162-164 | the class found was created by the lecturer; none exactly when no class was |
| Store.AssignmentById | lib/db.ts:204-206 | the assignment found has the id; none exactly when none has it |
| Store.AssignmentsOfClass | lib/db.ts:207-209 | exactly the class's assignments |
| Store.SubmissionById | lib/db.ts:228-230 | the submission found has the id; none exactly when none has it |
| Store.SubmissionsOfAssignment | lib/db.ts:231-233 | exactly the assignment's submissions |
| Store.SubmissionsOfStudent | lib/db.ts:234-236 | exactly the student's submissions |
| Store.SubmissionsOfStudentConcat | lib/db.ts:234-236 | appending submissions grows the student's list by exactly the appended ones of that student |
| Store.SubmissionOf | lib/db.ts:237-241 | the submission found is for that assignment and student; none exactly when none is |
| Store.SubmissionOfInBoth | lib/db.ts:231-241 | that submission is among the assignment's and among the student's submissions |
| Store.SchedulesOfClass | lib/db.ts:183-185 | exactly the class's schedule entries |
| Store.AttendanceById | lib/db.ts:259-261 | the session found has the id; none exactly when none has it |
| Store.AttendancesOfClass | lib/db.ts:262-264 | exactly the class's attendance sessions |
| Store.RecordsOfAttendance | lib/db.ts:265-267 | exactly the session's records |
| Store.RecordsOfStudent | lib/db.ts:268-270 | exactly the student's records |
| Store.RecordsOfStudentConcat | lib/db.ts:268-270 | the student's records of a concatenation are those of each part, in order |
| Store.WithStatus | app/student/rankings/page.tsx:38-39 | exactly the records with the status |
| Store.PresentAndLateBound | app/student/rankings/page.tsx:38-39 | present and late records together are at most all records |
| Store.FromNewUser | lib/db.ts:117-126 | the appended user carries the given data, the fresh id and the creation time |
| Store.MergeUser | lib/db.ts:130 | each property present in the patch (a class even as null) replaces the user's; the others, the id and the creation time are kept |
| Store.MergeUserIdempotent | lib/db.ts:130 | merging a patch twice equals merging it once; the empty patch changes nothing |
| Store.UpdateUser | lib/db.ts:127-132 | an unknown id leaves the table; otherwise only the first user with the id changes, to the merge |
| Store.UpdateUserThenFind | lib/db.ts:127-132 | after the update the lookup by id finds the merged user, or none if there was none |
| Store.ClearClass | lib/db.ts:133-140 | afterwards no user has the class; others are untouched; members change only in their class |
| Store.MergeSubmission | lib/db.ts:254 | a given score, feedback or grading time replaces the old one; absent ones, the id, assignment, student, URL and submission time are kept |
| Store.UpdateSubmission | lib/db.ts:251-256 | only the first submission with the id changes, to the merge; an unknown id changes nothing |
| Store.UpdateRecord | lib/db.ts:290-295 | only the first record with the id changes, and only in its status |
| Store.SessionsWithout | lib/db.ts:151-153 | exactly the sessions with another id |
| Store.SessionsWithoutConcat | lib/db.ts:151-153 | deleting keeps the other sessions in their order |
| Store.ClassesWithout | lib/db.ts:178-180 | exactly the classes with another id |
| Store.ClassesWithoutConcat | lib/db.ts:178-180 | deleting keeps the other rows in their order |
| Store.ClassesWithoutAbsent | lib/db.ts:178-180 | deleting an id no row has leaves the table unchanged |
| Store.SchedulesWithout | lib/db.ts:196-198 | exactly the entries with another id |
| Store.SchedulesWithoutConcat | lib/db.ts:196-198 | deleting keeps the other entries in their order |
| Store.SchedulesNotOfClass | lib/db.ts:199-201 | exactly the entries of other classes |
| Store.AssignmentsWithout | lib/db.ts:220-222 | exactly the assignments with another id |
| Store.AssignmentsNotOfClass | lib/db.ts:223-225 | exactly the assignments of other classes |
| Store.AttendanceIdsOfClass | lib/db.ts:297-299 | an id is listed iff some session of the class has it |
| Store.RecordsNotOfClass | lib/db.ts:301 | exactly the records whose session is not one of the class's |
| Store.AttendancesNotOfClass | lib/db.ts:303 | exactly the sessions of other classes |
| Store.Database.constructor | lib/db.ts:75-93 | the store starts with the seeded administrator and empty tables |
| Store.Database.CreateUser | lib/db.ts:117-126 | one user appended, with the fresh id; nothing else changes |
| Store.Database.UpdateUserById | lib/db.ts:127-132 | the users table becomes `UpdateUser` of the old one |
| Store.Database.RemoveFromClass | lib/db.ts:133-140 | the users table becomes `ClearClass` of the old one |
| Store.Database.CreateSession | lib/db.ts:147-150 | the session is appended and its id returned |
| Store.Database.DeleteSession | lib/db.ts:151-153 | the sessions table loses exactly the sessions with the id |
| Store.Database.CreateClass | lib/db.ts:168-177 | one class appended, with the fresh id and time |
| Store.Database.DeleteClass | lib/db.ts:178-180 | the classes table becomes `ClassesWithout` of the old one |
| Store.Database.CreateSchedule | lib/db.ts:186-195 | one entry appended |
| Store.Database.DeleteSchedule | lib/db.ts:196-198 | the entries with the id are removed |
| Store.Database.DeleteSchedulesOfClass | lib/db.ts:199-201 | the class's entries are removed |
| Store.Database.CreateAssignment | lib/db.ts:210-219 | one assignment appended |
| Store.Database.DeleteAssignment | lib/db.ts:220-222 | the assignments with the id are removed |
| Store.Database.DeleteAssignmentsOfClass | lib/db.ts:223-225 | the class's assignments are removed |
| Store.Database.CreateSubmission | lib/db.ts:242-250 | one submission appended |
| Store.Database.UpdateSubmissionById | lib/db.ts:251-256 | the submissions table becomes `UpdateSubmission` of the old one |
| Store.Database.CreateAttendance | lib/db.ts:271-280 | one session appended |
| Store.Database.CreateRecord | lib/db.ts:281-289 | one record appended |
| Store.Database.UpdateRecordById | lib/db.ts:290-295 | the records table becomes `UpdateRecord` of the old one |
| Store.Database.DeleteAttendanceOfClass | lib/db.ts:296-304 | the records of the class's sessions (found from the sessions as they were) and then the sessions are removed; all other rows stay, in order (both tables are filtered, and `Common.FilterConcat` shows a filter keeps order) |
| Actions.LoginReply | lib/actions.ts:9-33 | an unknown username and a wrong password give the same error; success carries the user's role |
| Actions.LoginSucceedsIff | lib/actions.ts:9-33 | with unique ids, login succeeds iff the first user with the username has that password |
| Actions.Login | lib/actions.ts:9-33 | the reply is `LoginReply`; on success exactly one session for the user is appended, otherwise sessions are unchanged |
| Actions.RegisterReply | lib/actions.ts:35-68 | username taken, then e-mail taken, each iff some user has it; success iff neither |
| Actions.Register | lib/actions.ts:35-68 | on success exactly the new user is appended, with no class; otherwise users are unchanged |
| Actions.RegisteredUserIsFound | lib/actions.ts:35-68 | after registering, the username finds the new user |
| Actions.CodeNumber | lib/actions.ts:85 | a draw in [0, 1) gives a number in 10000..99999 |
| Actions.ClassCode | lib/actions.ts:85 | the code has five decimal digits and denotes a number in 10000..99999 |
| Actions.CreateClassReply | lib/actions.ts:75-102 | an unknown lecturer gives the unexpected error; a lecturer with a class is refused iff the class is truthy; success returns the new id and code |
| Actions.CreateClass | lib/actions.ts:75-102 | on success one class is appended and the lecturer's class set; on a refusal nothing changes |
| Actions.OneClassPerLecturer | lib/actions.ts:80-94 | after a successful creation, a second one by the same lecturer is refused |
| Actions.JoinClassReply | lib/actions.ts:104-129 | an unknown student throws; a student with a class is refused; an unknown code is refused; success joins the class found by code |
| Actions.JoinClass | lib/actions.ts:104-129 | on success the student's class is the found class; otherwise users are unchanged |
| Actions.ExitClass | lib/actions.ts:131-140 | the user's class becomes null; nothing else of the user changes |
| Actions.NoMemberLeft | lib/actions.ts:145-148 | after the class is cleared from everyone and from the lecturer, nobody is in the class |
| Actions.DeleteClass | lib/actions.ts:142-162 | members and the lecturer lose the class; the class's schedules, assignments, sessions, records and the class itself go; submissions and sessions stay |
| Actions.GradeSubmission | lib/actions.ts:265-279 | the first submission with the id gets the score, the feedback and the grading time |
| Actions.GradeTouchesOne | lib/actions.ts:265-279 | grading changes only that submission, and keeps its author and assignment |
| Actions.UpdateAttendanceRecord | lib/actions.ts:320-334 | only the record's status changes |
| Actions.AbsentRecords | lib/actions.ts:298-310 | no more records than students, each for the session and absent |
| Actions.AbsentRecordsIndexed | lib/actions.ts:298-310 | each record is the absent record of one student position whose insert did not fail; these positions strictly increase along the records, so no position gets two records |
| Actions.AbsentRecordsComplete | lib/actions.ts:298-310 | every student whose insert did not fail gets its absent record |
| Actions.AbsentRecordsSound | lib/actions.ts:298-310 | every record written belongs to a student whose insert did not fail |
| Actions.AbsentRecordsAllWritten | lib/actions.ts:298-310 | when no insert fails, there is one record per student, in student order |
| Actions.CreateAttendance | lib/actions.ts:281-318 | one session is appended, then exactly the absent records of the class's students, in order |
| SqlBuilders.StatusName | lib/db-mysql.ts:467-471 | the column value is "present", "absent" or "late", one name per status |
| SqlBuilders.UserColumnPosition | lib/db-mysql.ts:164-197 | the position of a SET entry in the order the builder tries them |
| SqlBuilders.PushUserColumn | lib/db-mysql.ts:168-191 | one conditional push keeps the SET-list invariant one column further |
| SqlBuilders.UsersUpdate | lib/db-mysql.ts:164-197 | an entry is in the SET list iff it qualifies (truthy text; class present even as null); entries are in column order, each with its value; the id comes last; no statement without entries |
| SqlBuilders.SubmissionColumnPosition | lib/db-mysql.ts:385-406 | the position of a SET entry in the builder's order |
| SqlBuilders.SubmissionsUpdate | lib/db-mysql.ts:385-406 | an entry is in the SET list iff its property is present (0 and "" included), in order, with its value; the id comes last; no statement without entries |
| SqlBuilders.FalsyValuesDiffer | lib/db-mysql.ts:168-171 | an empty username is not written, while a score of 0 is |
| SqlBuilders.UpdateRecordStatement | lib/db-mysql.ts:467-471 | a statement exists iff a status is given, with the status name and the id as parameters |
| SqlBuilders.CreateUserParams | lib/db-mysql.ts:147-161 | seven parameters in column order; the class is NULL iff it is missing or "" |
| SqlBuilders.FirstRow | lib/db-mysql.ts:98-99 | none iff there are no rows, else the first row |
| SqlBuilders.FirstRowIsFind | lib/db-mysql.ts:98-99 | the first row of a filtering query is what `find` returns on the in-memory table |
| Rankings.Graded | app/student/rankings/page.tsx:31 | exactly the submissions whose score is not undefined (null kept) |
| Rankings.AverageScore | app/student/rankings/page.tsx:31-35 | 0 when nothing is graded; otherwise the result times the count is the sum of `score \|\| 0` |
| Rankings.QuotientBounds | app/student/rankings/page.tsx:32-41 | a total between 0 and hi·n, divided by a positive count n, lies in [0, hi] |
| Rankings.SumScoresBounds | app/student/rankings/page.tsx:34 | scores in [0, 100] sum to at most 100 per submission |
| Rankings.AverageScoreBounds | app/student/rankings/page.tsx:31-35 | with scores in [0, 100] the average lies in [0, 100] |
| Rankings.SumScoresConcat | app/student/rankings/page.tsx:34 | the sum of a concatenation is the sum of the sums |
| Rankings.UngradedLeavesAverage | app/student/rankings/page.tsx:31-35 | an ungraded submission does not move the average |
| Rankings.NullScoreCountsAsZero | app/student/rankings/page.tsx:31-35 | a null score is kept and counts 0: 90 and null average to 45 |
| Rankings.AttendancePercentage | app/student/rankings/page.tsx:38-41 | 0 without sessions; otherwise the result times the sessions is (present + late/2)·100 |
| Rankings.AttendancePercentageBounds | app/student/rankings/page.tsx:38-41 | lies in [0, 100] when present plus late is at most the sessions |
| Rankings.Round | app/student/rankings/page.tsx:48-50 | `Math.round`: the integer k with k − ½ ≤ x < k + ½ |
| Rankings.RoundUnique | app/student/rankings/page.tsx:48-50 | that integer is unique |
| Rankings.OverallScoreBounds | app/student/rankings/page.tsx:44-50 | the blend of two values in [0, 100] and its rounding lie in [0, 100] |
| Rankings.RoundAfterWeighting | app/student/rankings/page.tsx:44-50 | rounding after weighting gives 59 for an average of 84.5; rounding first would give 60 |
| Rankings.RankingFor | app/student/rankings/page.tsx:26-55 | the three scores are `Math.round` of the graded mean, of the late-counts-half attendance percentage, and of the 70/30 blend of those two unrounded values; the row counts all the student's submissions and present records, and carries the class totals |
| Rankings.NoActivityScoresZero | app/student/rankings/page.tsx:31-50 | with nothing graded and no present or late record, all three scores are 0 |
| Rankings.RankingBounds | app/student/rankings/page.tsx:31-50 | with scores in [0, 100] and records ≤ sessions, all three scores lie in 0..100 |
| Rankings.AttendanceAboveHundred | app/student/rankings/page.tsx:28-41 | two present records of the student and one session give an attendance of 200 |
| Rankings.RecordCounting | app/student/rankings/page.tsx:38-53 | another present record raises the present count by one; a late one does not |
| Rankings.SubmissionCounting | app/student/rankings/page.tsx:27-51 | every new submission counts as submitted, graded or not |
| Rankings.WorkedExample | app/student/rankings/page.tsx:31-50 | scores 80 and 100 with 7 present and 2 late of 10 give 90, 80 and 87 |
| Rankings.Rows | app/student/rankings/page.tsx:25-57 | one row per student, in student order |
| Rankings.SortRankings | app/student/rankings/page.tsx:60 | non-increasing in the rounded overall score, a permutation of the rows, stable for ties |
| Rankings.SortedRankingsUnique | app/student/rankings/page.tsx:60 | any two non-increasing, stable rearrangements of the rows are the same list |
| Rankings.ClassRows | app/student/rankings/page.tsx:20-57 | one row per student of the class, in order, each the student's row over the whole tables with the class's numbers of assignments and sessions |
| Rankings.ClassRankings | app/lecturer/rankings/page.tsx:20-60 | sorted, a permutation of the class's rows, stable; empty for a class without students |
| Rankings.Standing | app/student/rankings/page.tsx:63-64 | the viewer's row is found iff present; the position is the 1-based index of its first occurrence, else 0 |
| Rankings.LecturerRankings | app/lecturer/rankings/page.tsx:9-60 | the page guard, then the sorted class ranking |
| Rankings.StudentRankings | app/student/rankings/page.tsx:9-64 | the page guard, the sorted ranking, and the viewer's row at the reported position |
| AttendanceSummary.StatusFor | app/student/attendance/page.tsx:23-26 | the status of the student's first record of the session, or absent when there is none |
| AttendanceSummary.Entries | app/student/attendance/page.tsx:22-28 | one entry per session in order, showing the status of the student's first record of it, or absent; a non-absent status comes from a record of that session |
| AttendanceSummary.SummaryAsWritten | app/student/attendance/page.tsx:30-33 | total is the sessions; present and late count every record of the student with that status; present plus late is at most the records; absent is what remains |
| AttendanceSummary.AbsentCanBeNegative | app/student/attendance/page.tsx:30-33 | one present record of an earlier class and no sessions give an absent count of −1 (the corrected one gives 0) |
| AttendanceSummary.CountStatus | app/student/attendance/page.tsx:31-33 | as many as `filter` keeps of the entries with the status, never more than the entries |
| AttendanceSummary.StatusCountsPartition | app/student/attendance/page.tsx:31-33 | present, late and absent entries together are all the entries |
| AttendanceSummary.SummaryOf | app/student/attendance/page.tsx:30-33 | the corrected counters: present + late + absent = total, 0 ≤ absent ≤ total |
| AttendanceSummary.EntriesCountRecords | app/student/attendance/page.tsx:22-32 | with distinct sessions and at most one record per session, the entries showing present (or late) are as many as the records of those sessions with that status |
| AttendanceSummary.OwnRecordsAgree | app/student/attendance/page.tsx:22-33 | when every record is for a session of the class and no session has two, in any order, the page's counters are the corrected ones |
| AttendanceSummary.StudentAttendance | app/student/attendance/page.tsx:8-33 | the guard; one entry per session of the class with the status of the student's record; present and late over all the student's records, absent the remainder of the sessions |
| AttendanceSummary.StudentAttendanceCorrected | app/student/attendance/page.tsx:8-33 | the same entries, with all four counters taken over them: absent in 0..total, the counters add up to the sessions |
| AttendanceSummary.PageAgreesWithoutOtherClasses | app/student/attendance/page.tsx:19-33 | with distinct sessions and every record of the student for its own session of the class, the page as written is the corrected page |
| ScheduleOrder.DayIndex | components/lecturer/schedule-list.tsx:57-58 | `indexOf` on Monday..Friday: the position of the day, −1 iff it is not one of them |
| ScheduleOrder.OrderOfDays | components/lecturer/schedule-list.tsx:56-59 | in a sorted list unknown days come before weekdays, and Monday before Friday |
| ScheduleOrder.OrderedListIsKept | app/student/schedule/page.tsx:20-23 | sorting a list already in week order (as the SQL query returns it) changes nothing |
| ScheduleOrder.ScheduleList | components/lecturer/schedule-list.tsx:48-59 | an empty list shows the empty state; otherwise the list itself is sorted in place, as a stable permutation |
| ScheduleOrder.StudentSchedule | app/student/schedule/page.tsx:7-23 | the guard, then the class's entries sorted by day, as a stable permutation |
| BlobStorage.FileUrl | lib/storage.ts:19 | the URL is the prefix followed by the path |
| BlobStorage.KeyOf | lib/storage.ts:23 | a path without the prefix is its own key; otherwise the key is the path with the first occurrence of the prefix cut out |
| BlobStorage.UrlRoundTrip | lib/storage.ts:19-23 | the key of an upload's URL is its path, even when the path contains the prefix again |
| BlobStorage.Lookup | lib/storage.ts:22-25 | an entry comes back iff its key is in the map, and it is the stored one |
| BlobStorage.UploadThenLookup | lib/storage.ts:11-24 | looking up an upload's URL finds what was uploaded |
| BlobStorage.UploadKeepsOthers | lib/storage.ts:12 | an upload changes no lookup of another key |
| BlobStorage.BlobStore.constructor | lib/storage.ts:5 | the store starts empty |
| BlobStorage.BlobStore.Upload | lib/storage.ts:7-20 | the map gains or replaces the path's entry; the URL is returned and finds the file; other lookups are unchanged |
| BlobStorage.BlobStore.GetFile | lib/storage.ts:22-25 | an entry comes back iff its key is stored |
| Chatbot.Respond | components/chatbot/chatbot-page.tsx:54-263 | the greeting iff "hello", "hi" or "help" occurs; a role's answers only for that role; a general answer only when the greeting did not match and it belongs to no role (first-match order: `RespondFollowsRules` with `FirstMatchIsFirst`) |
| Chatbot.GetResponse | components/chatbot/chatbot-page.tsx:50-264 | the greeting iff "hello", "hi" or "help" occurs in the lower-cased message; role answers only for that role |
| Chatbot.FirstMatchFrom | components/chatbot/chatbot-page.tsx:54-263 | the fallback, or the answer of a rule that applies |
| Chatbot.FirstMatchIsFirst | components/chatbot/chatbot-page.tsx:54-263 | the answer is that of the first applicable rule; the fallback iff no rule applies |
| Chatbot.RespondFollowsRules | components/chatbot/chatbot-page.tsx:54-263 | the if-chain equals the rule table tried in source order |
| Chatbot.FallbackIffNoRule | components/chatbot/chatbot-page.tsx:253-263 | the default list iff no rule applies to the role and message |
| Chatbot.CaseInsensitive | components/chatbot/chatbot-page.tsx:51 | a message and its lower-cased form get the same answer |
| Chatbot.JoinBeforeAssignment | components/chatbot/chatbot-page.tsx:65-86 | a student message with "join", "class" and "assignment" gets the join answer |
| Chatbot.HiInsideWords | components/chatbot/chatbot-page.tsx:54 | any message containing "this", "which" or "anything" is greeted, for every role |
| Chatbot.QuickQuestions | components/chatbot/chatbot-page.tsx:299-314 | six questions; the first two depend on the role, the other four are fixed |
| Chatbot.QuickQuestionsNotBlank | components/chatbot/chatbot-page.tsx:299-314 | no quick question is blank after trimming |
| Chatbot.ChatWindow.constructor | components/chatbot/chatbot-page.tsx:25-48 | the window opens with the welcome message alone and an empty box |
| Chatbot.ChatWindow.Type | components/chatbot/chatbot-page.tsx:405 | the box holds the typed text |
| Chatbot.ChatWindow.SendMessage | components/chatbot/chatbot-page.tsx:266-280 | blank input changes nothing; otherwise one user message with the input is appended, the box is cleared and typing is set |
| Chatbot.ChatWindow.DeliverReply | components/chatbot/chatbot-page.tsx:281-290 | one bot message with the mock text is appended, whatever was asked; typing ends |
| Chatbot.ChatWindow.KeyPress | components/chatbot/chatbot-page.tsx:293-297 | Enter sends as above, any other key changes nothing |
| Chatbot.ChatWindow.ClickQuickQuestionAsWritten | components/chatbot/chatbot-page.tsx:432-434 | the question is never sent: with an empty box it is only put in the box; otherwise the old text is sent |
| Chatbot.ChatWindow.ClickQuickQuestion | components/chatbot/chatbot-page.tsx:432-434 | corrected: the question is appended as the user's message |
| AdminTables.ClassName | components/admin/user-management-table.tsx:90-94 | "No class" for a missing or empty id, "name (code)" of the first class with it, else "Unknown class" |
| AdminTables.UpdatePayload | components/admin/user-management-table.tsx:55-62 | name and e-mail always, the password iff one was typed, nothing else |
| AdminTables.SaveUntouchedKeepsUser | components/admin/user-management-table.tsx:42-62 | opening the dialog and saving unchanged leaves the user as it was in the in-memory store |
| AdminTables.ClearedFieldsNotWritten | components/admin/user-management-table.tsx:55-62 | against the SQL store, a cleared name or e-mail is not written, and a password only when typed |
| AdminTables.EditDialog.constructor | components/admin/user-management-table.tsx:35-39 | no user being edited, empty inputs, not loading |
| AdminTables.EditDialog.Edit | components/admin/user-management-table.tsx:42-47 | the dialog holds the user, its name and e-mail, and an empty password |
| AdminTables.EditDialog.Update | components/admin/user-management-table.tsx:49-88 | without an open dialog nothing happens; otherwise the user is updated with the payload, the dialog is closed and loading ends |
| AdminTables.LecturerName | components/admin/class-management-table.tsx:35-38 | the full name of the first user with the id, else "Unknown" |
| AdminTables.ClassMembers | components/admin/class-management-table.tsx:40-42 | exactly the users whose class is the class |
| AdminTables.StudentsAmongMembers | components/admin/class-management-table.tsx:40-46 | the class's students are the members whose role is student |
| AdminTables.StudentCount | components/admin/class-management-table.tsx:44-46 | the number of members with role student, never more than the members |
| DashboardGate.DashboardOf | components/layout/dashboard-layout.tsx:19-27 | admin and lecturer go to their own dashboards, every other role to the student's |
| DashboardGate.RoleOfDashboard | components/layout/dashboard-layout.tsx:19-27 | a dashboard's role is known and leads back to that dashboard |
| DashboardGate.DashboardRoundTrip | components/layout/dashboard-layout.tsx:19-27 | every known role's dashboard belongs to that role |
| DashboardGate.Gate | components/layout/dashboard-layout.tsx:12-27 | the page renders iff there is a session of the required role; no session goes to "/"; another role goes to its own dashboard |
| DashboardGate.Home | app/page.tsx:5-16 | the login page without a session, otherwise the session's dashboard |
| DashboardGate.GateSettles | components/layout/dashboard-layout.tsx:19-27 | a known role that is turned away lands on a page whose gate lets it in |
| DashboardGate.UnknownRoleLoops | components/layout/dashboard-layout.tsx:19-27 | a role outside the three is sent back to the student dashboard by that dashboard's own gate |
| DashboardGate.GateAgreesWithHome | app/page.tsx:8-16 | a turned-away session goes where the home page would send it |
| DashboardGate.ClassPageAccess | app/student/attendance/page.tsx:11-17 | no session or another role goes to "/"; no class goes to the dashboard; otherwise the page proceeds with a non-empty class id |
| DashboardGate.ProceedPassesGate | app/student/attendance/page.tsx:11-17 | a page the guard lets through also passes its layout's gate |
| StableSort.SortByKey | app/student/schedule/page.tsx:20-23 | in place: sorted by key, a permutation, and stable for every key |
| StableSort.SortedSameKeyOrderUnique | app/student/rankings/page.tsx:60 | two sorted, stable rearrangements of the same list are equal |
| Common.FindIndex | lib/db.ts:128 | the first index satisfying the test, or −1 when none does |
| Common.Find | lib/db.ts:98 | the first element satisfying the test, none iff no element does |
| Common.Filter | lib/db.ts:112 | the elements satisfying the test, no others |
| Common.FilterConcat | lib/db.ts:112 | filtering keeps the order of the parts |
| Common.UpdateFirst | lib/db.ts:128-131 | only the first match is replaced; nothing changes without a match |
| Text.ToLowerIdempotent | components/chatbot/chatbot-page.tsx:51 | lower-casing twice equals lower-casing once |
| Text.ContainsPiece | components/chatbot/chatbot-page.tsx:54 | a message containing a word contains each piece of it |
| Text.ReplaceFirst | lib/storage.ts:23 | without an occurrence the string is unchanged; otherwise the first occurrence, and only it, is replaced |
| Text.ReplaceLeadingPattern | lib/storage.ts:23 | replacing a leading pattern by nothing strips exactly that pattern |
| Text.TrimEmptyIffBlank | components/chatbot/chatbot-page.tsx:267 | a string trims to "" iff all its characters are white space |
| Text.DecimalRoundTrip | lib/actions.ts:85 | the decimal string of a number reads back as that number |
| Text.FiveDigits | lib/actions.ts:85 | numbers 10000..99999 have five digits |

## Left out

- Rendering is not modelled: JSX, badges, toasts, dialogs opening and closing, `revalidatePath`, console output, `scrollIntoView`, and the one-second `setTimeout` delay. Only the state changes these handlers make are modelled.
- Fresh ids (`crypto.randomUUID`, `generateId`), `new Date()` and `Math.random()` are parameters of the operations. `getSession` (lib/auth.ts) is not part of this model; the signed-in user is a parameter.
- `Promise.all` in the ranking pages: the per-student computations are independent, so they are modelled in order.
- Floating point is replaced by exact real arithmetic. The 0.7, 0.3 and 0.5 products and `Math.round` near .5 boundaries may differ in IEEE-754.
- `Rankings.Round` is `(x + 0.5).Floor`, which is `Math.round` on every real: halves round towards +∞, so -2.5 rounds to -2.
- Exceptions are modelled where the actions themselves throw: `createClass` and `joinClass` on an unknown user. The in-memory `createRecord` cannot throw; the `failing` set of `createAttendance` stands for the per-record insert failures of the SQL store, which the action's inner `try` catches. The catch-all "unexpected error" of the other actions cannot arise against the in-memory store.
- Rankings.ClassRows: the students come in table order; the SQL store returns them `ORDER BY full_name` (lib/db-mysql.ts:134). The order of rows with equal rounded scores therefore follows names on the real pages. The same holds for Rankings.ClassRankings, and for Rankings.StudentRankings, whose `myPosition` among tied students then depends on names. Actions.CreateAttendance likewise writes the absent records in name order there.
- ScheduleOrder.StudentSchedule: the schedules come in table order; the SQL store returns them `ORDER BY FIELD(day, …), start_time` (lib/db-mysql.ts:275). On the real page, entries of the same day therefore keep start-time order through the stable sort, while ScheduleOrder.StudentSchedule keeps their table order.
- AttendanceSummary.StudentAttendance: the sessions come in table order; the SQL store returns them `ORDER BY date DESC` (lib/db-mysql.ts:421). Only the order of the entries differs; the counters do not depend on it.
- Rankings.RankingBounds: its premise (no more records of the student than sessions of the class) is not guaranteed by the source. The pages count all of a student's records, also those of an earlier class, over the current class's sessions, so the attendance percentage can exceed 100 (Rankings.AttendanceAboveHundred shows 200). The cause is the one behind the attendance-page finding; no corrected ranking is modelled.
- Rankings.UngradedLeavesAverage: holds for the in-memory store, where an ungraded score is `undefined`. The SQL store returns a NULL score as `null`, which `Graded` keeps and `AverageScore` counts as 0 (Rankings.NullScoreCountsAsZero). On the real pages an ungraded submission therefore lowers the average.
- Not modelled, because each is a thin wrapper over one store call that is already modelled:
  - `logout`, `createSchedule`, `deleteSchedule`, `createAssignment`, `deleteAssignment`, `submitAssignment`;
  - `updateUserInfo` (the admin dialog calls the store update directly).
- `findAll` of the users and classes tables returns a copy (`[...table]`). A Dafny sequence is a value, so a copy is the table itself.
- SQL execution, the other SQL queries (including `ORDER BY FIELD(day, …)`, which already returns schedules in week order) and the SQL `removeFromClass`/`deleteByClassId` statements are not modelled. Only the statement text and parameters that the builders produce are.
- File contents are modelled as an opaque byte sequence. No `Blob` or `arrayBuffer` conversion is modelled. The route app/api/files/[...path]/route.ts is not part of this model.
- `Text.ToLower` lower-cases ASCII letters only; `toLowerCase` also maps non-ASCII letters.
- `Text.IsWhiteSpace` covers the ASCII white space and U+00A0. `trim` also removes the other Unicode space separators, the line and paragraph separators, and U+FEFF.
- The answer texts of `getResponse` are not modelled; an `Answer` names the rule that fired. `getResponse` is never called by the window itself.
- The welcome message is modelled as set at construction. It is not re-set when the role property changes.
- Store.UserById: states that the user found matches, not that it is the FIRST match. `Common.Find` (its body) states that. The same goes for the following lookups:
  - Store.UserByUsername
  - Store.UserByEmail
  - Store.ClassById
  - Store.ClassByCode
  - Store.ClassOfLecturer
  - Store.AssignmentById
  - Store.SubmissionById
  - Store.SubmissionOf
  - Store.AttendanceById
- Store.Database.CreateSession: the session datum is passed in whole, as in the source.

## Findings

| source | as written | input that shows it | evidently intended | confidence | as-written member | corrected member |
|---|---|---|---|---|---|---|
| app/student/attendance/page.tsx:30-33 | present and late are counted over all of the student's records, while the sessions are those of the current class | a student who left a class holds one "present" record from it, and the new class has no sessions: the page shows −1 absent | count only the statuses of the current class's sessions, so present + late + absent = sessions and absent ≥ 0 | not executed | AttendanceSummary.AbsentCanBeNegative | AttendanceSummary.StudentAttendanceCorrected |
| components/chatbot/chatbot-page.tsx:432-434 | a quick question's click calls `setInputValue(question)` and then `handleSendMessage()`, which reads `inputValue` from the current render | with an empty input box, clicking "How do I join a class?" sends nothing and leaves the question in the box | the clicked question is sent as the user's message | not executed | Chatbot.ChatWindow.ClickQuickQuestionAsWritten | Chatbot.ChatWindow.ClickQuickQuestion |
