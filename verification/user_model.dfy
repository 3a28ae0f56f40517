/** The User document of server/models/User.js and the two collection
    operations the controllers use on it: `findOne({email})` and inserting a
    new document under the unique index on `email`.

    Users are never removed by the application, so the collection is a
    sequence and a user's id is its position in it. */
module UserModel {
  import opened Common

  datatype Role = Student | Teacher

  const RoleNames: seq<string> := ["student", "teacher"]

  function RoleName(r: Role): (s: string)
    ensures s in RoleNames
    ensures ParseRole(s) == Some(r)
  {
    match r
    case Student => "student"
    case Teacher => "teacher"
  }

  /** The enum validator on `role`. */
  function ParseRole(s: string): (r: Option<Role>)
    ensures r.Some? <==> s in RoleNames
  {
    if s == "student" then Some(Student)
    else if s == "teacher" then Some(Teacher)
    else None
  }

  /** A stored user. `teacherId` references another user (students only);
      nothing checks that it names an existing teacher. */
  datatype User = User(email: string, passwordHash: string, role: Role, teacherId: Option<Id>)

  /** The object handed to `new User({...})`. */
  datatype UserDraft = UserDraft(
    email: Option<string>,
    passwordHash: Option<string>,
    role: Option<string>,
    teacherId: Option<Id>)

  /** `new User(draft)` and its validators on `save()`. */
  function InstantiateUser(d: UserDraft): (r: Option<User>)
    ensures r.Some? <==>
      d.email.Some? && d.email.value != "" && d.passwordHash.Some? && d.passwordHash.value != "" &&
      d.role.Some? && d.role.value in RoleNames
    ensures r.Some? ==>
      r.value.email == d.email.value && r.value.passwordHash == d.passwordHash.value &&
      RoleName(r.value.role) == d.role.value && r.value.teacherId == d.teacherId
  {
    if d.email.None? || d.email.value == "" || d.passwordHash.None? || d.passwordHash.value == "" || d.role.None? then None
    else
      match ParseRole(d.role.value)
      case None => None
      case Some(role) => Some(User(d.email.value, d.passwordHash.value, role, d.teacherId))
  }

  /** The unique index on `email`. */
  predicate EmailsUnique(users: seq<User>)
  {
    forall i, j :: 0 <= i < j < |users| ==> users[i].email != users[j].email
  }

  /** `User.findOne({email})`: the first user, in insertion order, with that email. */
  function FindByEmail(users: seq<User>, email: string): (r: Option<Id>)
    ensures r.Some? ==> r.value < |users| && users[r.value].email == email
    ensures r.Some? ==> forall j :: 0 <= j < r.value ==> users[j].email != email
    ensures r.None? ==> forall j :: 0 <= j < |users| ==> users[j].email != email
  {
    if users == [] then None
    else if users[0].email == email then Some(0)
    else
      match FindByEmail(users[1..], email)
      case None => None
      case Some(j) => Some(j + 1)
  }

  /** Saving a new user under the unique index: refused (`None`) when the email
      is taken, otherwise the user is appended and receives the next id. */
  function InsertUser(users: seq<User>, u: User): (r: Option<seq<User>>)
    ensures r.Some? <==> FindByEmail(users, u.email).None?
    ensures r.Some? ==> r.value == users + [u]
    ensures r.Some? && EmailsUnique(users) ==> EmailsUnique(r.value)
  {
    if FindByEmail(users, u.email).Some? then None else Some(users + [u])
  }

  /** With unique emails, the user found for an email is the only one with it. */
  lemma FindByEmailUnique(users: seq<User>, i: Id)
    requires EmailsUnique(users) && i < |users|
    ensures FindByEmail(users, users[i].email) == Some(i)
  {
  }
}
