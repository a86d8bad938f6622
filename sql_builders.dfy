/** The parts of lib/db-mysql.ts that decide what is sent to the database: the
    SET lists of the update statements (which columns, in which order, with
    which parameters), the parameters of the user insert, and the
    first-row-or-null reading of a single-row query. Executing the statements
    is not modelled; a statement is its SQL text and its parameter list. */
module SqlBuilders {
  import opened Common
  import opened Schema
  import opened Text
  import opened Store

  /** A statement parameter. */
  datatype SqlValue = SqlText(s: string) | SqlNull | SqlNumber(n: real) | SqlTime(t: Timestamp)

  datatype Statement = Statement(sql: string, params: seq<SqlValue>)

  /** A nullable string column: `null` is SQL NULL. */
  function Nullable(v: Option<string>): SqlValue
  {
    if v.Some? then SqlText(v.value) else SqlNull
  }

  /** The value stored in the `status` column. */
  function StatusName(s: Status): (r: string)
    ensures s == Present <==> r == "present"
    ensures s == Absent <==> r == "absent"
    ensures s == Late <==> r == "late"
  {
    match s
    case Present => "present"
    case Absent => "absent"
    case Late => "late"
  }

  // ------------------------------------------------------------------
  // users.update
  // ------------------------------------------------------------------

  /** The SET entries `users.update` can produce, in the order it tries them. */
  const UserColumns: seq<string> := ["username = ?", "password = ?", "full_name = ?", "email = ?", "role = ?", "class_id = ?"]

  /** Position of an entry in `UserColumns` (6 for anything else). */
  function UserColumnPosition(col: string): (r: nat)
    ensures r <= 6
    ensures r < 6 ==> UserColumns[r] == col
    ensures col in UserColumns ==> r < 6
  {
    if col == "username = ?" then 0
    else if col == "password = ?" then 1
    else if col == "full_name = ?" then 2
    else if col == "email = ?" then 3
    else if col == "role = ?" then 4
    else if col == "class_id = ?" then 5
    else 6
  }

  /** When an entry goes into the SET list: the five text properties when they
      are truthy (present and not ""), the class whenever it is present, even
      as `null`. */
  predicate UserQualifies(data: UserPatch, col: string)
  {
    if col == "username = ?" then Truthy(data.username)
    else if col == "password = ?" then Truthy(data.password)
    else if col == "full_name = ?" then Truthy(data.fullName)
    else if col == "email = ?" then Truthy(data.email)
    else if col == "role = ?" then Truthy(data.role)
    else if col == "class_id = ?" then data.classId.Some?
    else false
  }

  /** The parameter a qualifying entry carries. */
  function UserValue(data: UserPatch, col: string): SqlValue
    requires UserQualifies(data, col)
  {
    if col == "username = ?" then SqlText(data.username.value)
    else if col == "password = ?" then SqlText(data.password.value)
    else if col == "full_name = ?" then SqlText(data.fullName.value)
    else if col == "email = ?" then SqlText(data.email.value)
    else if col == "role = ?" then SqlText(data.role.value)
    else Nullable(data.classId.value)
  }

  /** After the first k pushes: `fields` holds exactly the qualifying entries
      among the first k columns, in column order, and `values` their parameters. */
  ghost predicate UserSetList(data: UserPatch, fields: seq<string>, values: seq<SqlValue>, k: nat)
    requires k <= 6
  {
    && (forall col :: col in fields <==> col in UserColumns[..k] && UserQualifies(data, col))
    && (forall i :: 0 <= i < |fields| ==> UserColumnPosition(fields[i]) < k)
    && (forall i, j :: 0 <= i < j < |fields| ==> UserColumnPosition(fields[i]) < UserColumnPosition(fields[j]))
    && |values| == |fields|
    && (forall i :: 0 <= i < |fields| ==> UserQualifies(data, fields[i]) && values[i] == UserValue(data, fields[i]))
  }

  /** One `if (userData.x) { fields.push(...); values.push(userData.x) }` of
      `users.update`, for the k-th column: it keeps `UserSetList`, one column further. */
  method PushUserColumn(data: UserPatch, fields: seq<string>, values: seq<SqlValue>, k: nat)
    returns (fields': seq<string>, values': seq<SqlValue>)
    requires k < 6 && UserSetList(data, fields, values, k)
    ensures UserSetList(data, fields', values', k + 1)
  {
    var col := UserColumns[k];
    assert UserColumns[..k + 1] == UserColumns[..k] + [col];
    assert UserColumnPosition(col) == k;
    if UserQualifies(data, col) {
      fields', values' := fields + [col], values + [UserValue(data, col)];
    } else {
      fields', values' := fields, values;
    }
  }

  /** `users.update(id, userData)`: grows `fields` and `values` through six
      conditional pushes (username, password, full name, email, role, class);
      only when some field qualified is the id appended and the statement issued. */
  method UsersUpdate(id: string, data: UserPatch) returns (fields: seq<string>, values: seq<SqlValue>, statement: Option<Statement>)
    ensures forall col :: col in fields <==> col in UserColumns && UserQualifies(data, col)
    ensures forall i, j :: 0 <= i < j < |fields| ==> UserColumnPosition(fields[i]) < UserColumnPosition(fields[j])
    ensures |fields| == 0 ==> values == [] && statement.None?
    ensures |fields| > 0 ==> |values| == |fields| + 1 && values[|fields|] == SqlText(id)
    ensures forall i :: 0 <= i < |fields| ==> UserQualifies(data, fields[i]) && values[i] == UserValue(data, fields[i])
    ensures statement.Some? <==> |fields| > 0
    ensures statement.Some? ==> statement.value == Statement("UPDATE users SET " + Join(fields, ", ") + " WHERE id = ?", values)
  {
    fields, values := [], [];
    assert UserColumns[..0] == [];
    fields, values := PushUserColumn(data, fields, values, 0);
    fields, values := PushUserColumn(data, fields, values, 1);
    fields, values := PushUserColumn(data, fields, values, 2);
    fields, values := PushUserColumn(data, fields, values, 3);
    fields, values := PushUserColumn(data, fields, values, 4);
    fields, values := PushUserColumn(data, fields, values, 5);
    assert UserColumns[..6] == UserColumns;
    if |fields| > 0 {
      values := values + [SqlText(id)];
      statement := Some(Statement("UPDATE users SET " + Join(fields, ", ") + " WHERE id = ?", values));
    } else {
      statement := None;
    }
  }

  // ------------------------------------------------------------------
  // submissions.update
  // ------------------------------------------------------------------

  const SubmissionColumns: seq<string> := ["score = ?", "feedback = ?", "graded_at = ?"]

  function SubmissionColumnPosition(col: string): (r: nat)
    ensures r <= 3
    ensures r < 3 ==> SubmissionColumns[r] == col
    ensures col in SubmissionColumns ==> r < 3
  {
    if col == "score = ?" then 0
    else if col == "feedback = ?" then 1
    else if col == "graded_at = ?" then 2
    else 3
  }

  /** `!== undefined` for every property: a score of 0 and an empty feedback are written. */
  predicate SubmissionQualifies(data: SubmissionPatch, col: string)
  {
    if col == "score = ?" then data.score.Some?
    else if col == "feedback = ?" then data.feedback.Some?
    else if col == "graded_at = ?" then data.gradedAt.Some?
    else false
  }

  function SubmissionValue(data: SubmissionPatch, col: string): SqlValue
    requires SubmissionQualifies(data, col)
  {
    if col == "score = ?" then SqlNumber(data.score.value)
    else if col == "feedback = ?" then SqlText(data.feedback.value)
    else SqlTime(data.gradedAt.value)
  }

  /** `submissions.update(id, data)`. */
  method SubmissionsUpdate(id: string, data: SubmissionPatch)
    returns (fields: seq<string>, values: seq<SqlValue>, statement: Option<Statement>)
    ensures forall col :: col in fields <==> col in SubmissionColumns && SubmissionQualifies(data, col)
    ensures forall i, j :: 0 <= i < j < |fields| ==> SubmissionColumnPosition(fields[i]) < SubmissionColumnPosition(fields[j])
    ensures |fields| == 0 ==> values == [] && statement.None?
    ensures |fields| > 0 ==> |values| == |fields| + 1 && values[|fields|] == SqlText(id)
    ensures forall i :: 0 <= i < |fields| ==> SubmissionQualifies(data, fields[i]) && values[i] == SubmissionValue(data, fields[i])
    ensures statement.Some? <==> |fields| > 0
    ensures statement.Some? ==> statement.value == Statement("UPDATE submissions SET " + Join(fields, ", ") + " WHERE id = ?", values)
  {
    fields, values := [], [];
    if data.score.Some? {
      fields := fields + ["score = ?"];
      values := values + [SqlNumber(data.score.value)];
    }
    if data.feedback.Some? {
      fields := fields + ["feedback = ?"];
      values := values + [SqlText(data.feedback.value)];
    }
    if data.gradedAt.Some? {
      fields := fields + ["graded_at = ?"];
      values := values + [SqlTime(data.gradedAt.value)];
    }
    if |fields| > 0 {
      values := values + [SqlText(id)];
      statement := Some(Statement("UPDATE submissions SET " + Join(fields, ", ") + " WHERE id = ?", values));
    } else {
      statement := None;
    }
  }

  /** The two update builders differ on falsy values: an empty username is
      not written by `users.update`, a score of 0 is written by
      `submissions.update`. */
  lemma FalsyValuesDiffer(u: UserPatch, s: SubmissionPatch)
    requires u.username == Some("") && s.score == Some(0.0)
    ensures !UserQualifies(u, "username = ?")
    ensures SubmissionQualifies(s, "score = ?") && SubmissionValue(s, "score = ?") == SqlNumber(0.0)
  {
  }

  // ------------------------------------------------------------------
  // attendance.updateRecord, users.create
  // ------------------------------------------------------------------

  /** `attendance.updateRecord(id, data)`: one statement when a status is given, none otherwise. */
  function UpdateRecordStatement(id: string, status: Option<Status>): (r: Option<Statement>)
    ensures r.Some? <==> status.Some?
    ensures r.Some? ==> r.value.params == [SqlText(StatusName(status.value)), SqlText(id)]
    ensures r.Some? ==> r.value.sql == "UPDATE attendance_records SET status = ? WHERE id = ?"
  {
    if status.Some? then
      Some(Statement("UPDATE attendance_records SET status = ? WHERE id = ?", [SqlText(StatusName(status.value)), SqlText(id)]))
    else None
  }

  /** The parameters of the INSERT in `users.create`; `classId || null` sends
      NULL for a missing and for an empty class id. */
  function CreateUserParams(id: string, data: NewUser): (r: seq<SqlValue>)
    ensures |r| == 7
    ensures r[0] == SqlText(id) && r[1] == SqlText(data.username) && r[2] == SqlText(data.password)
    ensures r[3] == SqlText(data.fullName) && r[4] == SqlText(data.email) && r[5] == SqlText(data.role)
    ensures r[6] == SqlNull <==> !Truthy(data.classId)
    ensures Truthy(data.classId) ==> r[6] == SqlText(data.classId.value)
  {
    [SqlText(id), SqlText(data.username), SqlText(data.password), SqlText(data.fullName),
     SqlText(data.email), SqlText(data.role), if Truthy(data.classId) then SqlText(data.classId.value) else SqlNull]
  }

  // ------------------------------------------------------------------
  // Single-row lookups
  // ------------------------------------------------------------------

  /** `rows[0] || null`: every row is an object, hence truthy. */
  function FirstRow<T>(rows: seq<T>): (r: Option<T>)
    ensures r.None? <==> |rows| == 0
    ensures r.Some? ==> r.value == rows[0]
  {
    if |rows| > 0 then Some(rows[0]) else None
  }

  /** A `WHERE` query without `ORDER BY` reading the table in order returns the
      matching rows; its first row is what `find` returns on the in-memory table. */
  lemma {:induction false} FirstRowIsFind<T>(table: seq<T>, p: T -> bool)
    ensures FirstRow(Filter(table, p)) == Find(table, p)
    decreases |table|
  {
    if |table| > 0 && !p(table[0]) {
      FirstRowIsFind(table[1..], p);
      var i := FindIndex(table[1..], p);
      assert FindIndex(table, p) == if i < 0 then -1 else i + 1;
    }
  }
}
