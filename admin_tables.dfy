/** The administrator's two tables: the user table
    (components/admin/user-management-table.tsx), which shows each user's
    class and edits a user's name, e-mail and password, and the class table
    (components/admin/class-management-table.tsx), which shows each class's
    lecturer, members and number of students. */
module AdminTables {
  import opened Common
  import opened Schema
  import opened Store
  import SqlBuilders

  // ------------------------------------------------------------------
  // The user table
  // ------------------------------------------------------------------

  /** `getClassName(classId)`: "No class" for a missing or empty class id,
      the name and code of the first class with that id, or "Unknown class". */
  function ClassName(classes: seq<Class>, classId: Option<string>): (r: string)
    ensures !Truthy(classId) ==> r == "No class"
    ensures Truthy(classId) && ClassById(classes, classId.value).None? ==> r == "Unknown class"
    ensures Truthy(classId) && ClassById(classes, classId.value).Some? ==>
      r == ClassById(classes, classId.value).value.name + " (" + ClassById(classes, classId.value).value.code + ")"
  {
    if !Truthy(classId) then "No class"
    else
      var c := ClassById(classes, classId.value);
      if c.Some? then c.value.name + " (" + c.value.code + ")" else "Unknown class"
  }

  /** The edit button is offered for every user but administrators. */
  predicate CanEdit(u: User)
  {
    u.role != "admin"
  }

  /** The `updateData` of `handleUpdate`: name and e-mail always, the password
      only when one was typed. */
  function UpdatePayload(fullName: string, email: string, password: string): (r: UserPatch)
    ensures r.fullName == Some(fullName) && r.email == Some(email)
    ensures r.password.Some? <==> password != ""
    ensures r.password.Some? ==> r.password.value == password
    ensures r.username.None? && r.role.None? && r.classId.None?
  {
    UserPatch(None, if password != "" then Some(password) else None, Some(fullName), Some(email), None, None)
  }

  /** Opening the dialog on a user and saving it untouched changes nothing
      in the in-memory store: the payload carries the user's own name and
      e-mail, and no password. */
  lemma SaveUntouchedKeepsUser(u: User)
    ensures MergeUser(u, UpdatePayload(u.fullName, u.email, "")) == u
  {
  }

  /** Against the SQL store the payload is filtered again: a name or e-mail
      cleared in the dialog is not written, the others are, and the
      password only when typed. */
  lemma ClearedFieldsNotWritten(fullName: string, email: string, password: string)
    ensures SqlBuilders.UserQualifies(UpdatePayload(fullName, email, password), "full_name = ?") <==> fullName != ""
    ensures SqlBuilders.UserQualifies(UpdatePayload(fullName, email, password), "email = ?") <==> email != ""
    ensures SqlBuilders.UserQualifies(UpdatePayload(fullName, email, password), "password = ?") <==> password != ""
    ensures !SqlBuilders.UserQualifies(UpdatePayload(fullName, email, password), "role = ?")
    ensures !SqlBuilders.UserQualifies(UpdatePayload(fullName, email, password), "class_id = ?")
  {
  }

  /** The edit dialog's state: `editingUser`, the three inputs and `isLoading`. */
  class EditDialog {
    var editingUser: Option<User>
    var fullName: string
    var email: string
    var password: string
    var isLoading: bool

    constructor()
      ensures editingUser.None? && fullName == "" && email == "" && password == "" && !isLoading
    {
      editingUser, fullName, email, password, isLoading := None, "", "", "", false;
    }

    /** `handleEdit(user)`: the dialog opens on the user with the current
        name and e-mail and an empty password. */
    method Edit(u: User)
      modifies this`editingUser, this`fullName, this`email, this`password
      ensures editingUser == Some(u) && fullName == u.fullName && email == u.email && password == ""
    {
      editingUser := Some(u);
      fullName := u.fullName;
      email := u.email;
      password := "";
    }

    /** `handleUpdate()` against the in-memory store, where the update
        cannot fail: without an open dialog nothing happens; otherwise the
        user is updated with the payload, the dialog closes, and loading ends. */
    method Update(db: Database)
      modifies this`editingUser, this`isLoading, db`users
      ensures old(editingUser).None? ==>
        editingUser == old(editingUser) && isLoading == old(isLoading) && db.users == old(db.users)
      ensures old(editingUser).Some? ==>
        && db.users == UpdateUser(old(db.users), old(editingUser).value.id, UpdatePayload(fullName, email, password))
        && editingUser.None? && !isLoading
      ensures fullName == old(fullName) && email == old(email) && password == old(password)
    {
      if editingUser.None? {
        return;
      }
      isLoading := true;
      db.UpdateUserById(editingUser.value.id, UpdatePayload(fullName, email, password));
      editingUser := None;
      isLoading := false;
    }
  }

  // ------------------------------------------------------------------
  // The class table
  // ------------------------------------------------------------------

  /** `getLecturerName(lecturerId)`: the full name of the first user with
      that id, or "Unknown". */
  function LecturerName(users: seq<User>, lecturerId: string): (r: string)
    ensures UserById(users, lecturerId).None? ==> r == "Unknown"
    ensures UserById(users, lecturerId).Some? ==> r == UserById(users, lecturerId).value.fullName
  {
    var u := UserById(users, lecturerId);
    if u.Some? then u.value.fullName else "Unknown"
  }

  /** `u.classId === classId` */
  function InClass(classId: string): User -> bool
  {
    (u: User) => u.classId == Some(classId)
  }

  function IsStudent(u: User): bool
  {
    u.role == "student"
  }

  /** `getClassMembers(classId)`: the users of the class in table order,
      the lecturer who created it included. */
  function ClassMembers(users: seq<User>, classId: string): (r: seq<User>)
    ensures forall i :: 0 <= i < |r| ==> r[i] in users && r[i].classId == Some(classId)
    ensures forall u :: u in users && u.classId == Some(classId) ==> u in r
  {
    Filter(users, InClass(classId))
  }

  /** The students among the users are the students among the members. */
  lemma {:induction false} StudentsAmongMembers(users: seq<User>, classId: string)
    ensures StudentsInClass(users, classId) == Filter(ClassMembers(users, classId), IsStudent)
    decreases |users|
  {
    if |users| > 0 {
      StudentsAmongMembers(users[1..], classId);
    }
  }

  /** `getStudentCount(classId)`: the members whose role is student; never
      more than the members, and exactly the students the rankings list. */
  function StudentCount(users: seq<User>, classId: string): (r: nat)
    ensures r == |Filter(ClassMembers(users, classId), IsStudent)|
    ensures r <= |ClassMembers(users, classId)|
  {
    StudentsAmongMembers(users, classId);
    |Filter(users, (u: User) => IsStudentOf(u, classId))|
  }
}
