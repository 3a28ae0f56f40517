/** server/controllers/authController.js: `signup` adds a user to the user
    table after its own checks, and `login` looks a user up, checks the
    password and shapes the response. bcrypt's `hash`/`compare` and
    jsonwebtoken's `sign` are the parameters `hash`, `compare` and `sign`;
    casting the `teacherId` text to an ObjectId is `castId`. */
module AuthController {
  import opened Common
  import opened TaskModel
  import opened UserModel
  import opened Http

  const StudentNeedsTeacherMessage: string := "Student must have teacherId."
  const EmailTakenMessage: string := "Email already exists"
  const SignupDoneMessage: string := "Signup successful"
  const BadCredentialsMessage: string := "Invalid credentials."
  /** The `expiresIn` option of every token. */
  const TokenLifetime: string := "1d"

  /** The object signed into a token. */
  datatype Payload = Payload(userId: Id, role: string)

  /** The arguments of `jwt.sign` other than the secret. */
  datatype SignRequest = SignRequest(payload: Payload, expiresIn: string)

  // ------------------------------------------------------------ signup

  /** The `teacherId` the new document receives: for a student the cast of the
      body's value (`None` inside when the cast fails), for anyone else none,
      whatever the body says. */
  function StoredTeacherId(role: Option<Value>, teacherId: Option<Value>, castId: string -> Option<Id>): (r: Option<Option<Id>>)
    ensures role != Some(Str("student")) ==> r == Some(None)
    ensures role == Some(Str("student")) && teacherId.Some? && teacherId.value.Str? ==>
      r == (match castId(teacherId.value.s) case Some(id) => Some(Some(id)) case None => None)
    ensures role == Some(Str("student")) && !(teacherId.Some? && teacherId.value.Str?) ==> r.None?
  {
    if role != Some(Str("student")) then Some(None)
    else
      match teacherId
      case Some(Str(t)) => (match castId(t) case Some(id) => Some(Some(id)) case None => None)
      case _ => None
  }

  /** `signup`: the response and the new user table. The student check
      comes first, then the lookup by email (a taken email is 409 whatever
      the password), then hashing and saving; a password that is not a
      string makes the hash throw (500), and an email that is not a string
      finds no user and fails when the document is built (500). */
  function SignupOutcome(users: seq<User>, body: Body, hash: string -> string, castId: string -> Option<Id>): (Response, seq<User>)
  {
    var role := Get(body, "role");
    var teacherId := Get(body, "teacherId");
    if role == Some(Str("student")) && !Truthy(teacherId) then
      (Response(400, Failure(StudentNeedsTeacherMessage)), users)
    else
      var email := Get(body, "email");
      var password := Get(body, "password");
      if email.Some? && email.value.Str? && FindByEmail(users, email.value.s).Some? then
        (Response(409, Failure(EmailTakenMessage)), users)
      else if !(email.Some? && email.value.Str? && password.Some? && password.value.Str?) then
        (Response(500, LibraryFailure), users)
      else
        var stored := StoredTeacherId(role, teacherId, castId);
        var roleText := if role.Some? && CastString(role.value).Text? then Some(CastString(role.value).s) else None;
        if stored.None? then (Response(500, LibraryFailure), users)
        else
          match InstantiateUser(UserDraft(Some(email.value.s), Some(hash(password.value.s)), roleText, stored.value))
          case None => (Response(500, LibraryFailure), users)
          case Some(u) =>
            // the lookup just found no user with this email, so the unique
            // index admits the insertion
            (Response(201, Done(SignupDoneMessage)), InsertUser(users, u).value)
  }

  /** Signup, described outright: the student check comes before any lookup,
      a taken email is 409, success appends one user holding the hash of the
      password and the role the String cast gives; a teacher id is stored
      only when the body's role is the string 'student' (a role that only
      casts to 'student', such as `{"_id": "student"}`, passes the check and
      is stored without one); every failure leaves the table as it was, and
      the unique index keeps holding. */
  lemma SignupExact(users: seq<User>, body: Body, hash: string -> string, castId: string -> Option<Id>)
    requires EmailsUnique(users)
    ensures var (r, users') := SignupOutcome(users, body, hash, castId);
      EmailsUnique(users') && (r.status != 201 ==> users' == users) && r.status in {201, 400, 409, 500}
    ensures var (r, users') := SignupOutcome(users, body, hash, castId);
      Get(body, "role") == Some(Str("student")) && !Truthy(Get(body, "teacherId")) ==>
        r == Response(400, Failure(StudentNeedsTeacherMessage))
    ensures var (r, users') := SignupOutcome(users, body, hash, castId);
      r.status == 409 <==>
        !(Get(body, "role") == Some(Str("student")) && !Truthy(Get(body, "teacherId"))) &&
        Get(body, "email").Some? && Get(body, "email").value.Str? &&
        FindByEmail(users, Get(body, "email").value.s).Some?
    ensures var (r, users') := SignupOutcome(users, body, hash, castId);
      r.status == 201 ==>
        r.body == Done(SignupDoneMessage) && |users'| == |users| + 1 && users'[..|users|] == users &&
        var u := users'[|users|];
        Get(body, "email") == Some(Str(u.email)) &&
        Get(body, "password").Some? && Get(body, "password").value.Str? &&
        u.passwordHash == hash(Get(body, "password").value.s) &&
        Get(body, "role").Some? && CastString(Get(body, "role").value) == Text(RoleName(u.role)) &&
        (Get(body, "role") == Some(Str("student")) ==>
           u.role == Student && u.teacherId.Some? && castId(Get(body, "teacherId").value.s) == u.teacherId) &&
        (Get(body, "role") != Some(Str("student")) ==> u.teacherId.None?)
  {
    var role := Get(body, "role");
    var teacherId := Get(body, "teacherId");
    var email := Get(body, "email");
    var password := Get(body, "password");
    if email.Some? && email.value.Str? && password.Some? && password.value.Str? {
      var stored := StoredTeacherId(role, teacherId, castId);
      var roleText := if role.Some? && CastString(role.value).Text? then Some(CastString(role.value).s) else None;
      if stored.Some? {
        var draft := UserDraft(Some(email.value.s), Some(hash(password.value.s)), roleText, stored.value);
        if InstantiateUser(draft).Some? {
          var u := InstantiateUser(draft).value;
          assert role == Some(Str("student")) ==> roleText == Some("student");
        }
      }
    }
  }

  /** An email already in the table is refused with 409, and the table is
      unchanged, whatever else the body holds, the password included. */
  lemma TakenEmailConflicts(users: seq<User>, body: Body, hash: string -> string, castId: string -> Option<Id>, i: Id)
    requires i < |users|
    requires Get(body, "email") == Some(Str(users[i].email))
    requires Get(body, "role") != Some(Str("student")) || Truthy(Get(body, "teacherId"))
    ensures SignupOutcome(users, body, hash, castId) == (Response(409, Failure(EmailTakenMessage)), users)
  {
    assert FindByEmail(users, users[i].email).Some?;
  }

  /** For a body with the shape the signup schema enforces, the outcome
      turns on the email alone: 409 when it is taken, otherwise 201 as long
      as the password hashes and a student's teacher id casts. */
  lemma WellFormedSignup(users: seq<User>, body: Body, hash: string -> string, castId: string -> Option<Id>)
    requires Get(body, "email").Some? && Get(body, "email").value.Str? && Get(body, "email").value.s != ""
    requires Get(body, "password").Some? && Get(body, "password").value.Str?
    requires Get(body, "role").Some? && Get(body, "role").value.Str? && Get(body, "role").value.s in RoleNames
    requires Get(body, "role") == Some(Str("student")) ==>
      Get(body, "teacherId").Some? && Get(body, "teacherId").value.Str? && Get(body, "teacherId").value.s != ""
    ensures var r := SignupOutcome(users, body, hash, castId).0;
      r.status != 400 &&
      (r.status == 409 <==> FindByEmail(users, Get(body, "email").value.s).Some?) &&
      (FindByEmail(users, Get(body, "email").value.s).None? && hash(Get(body, "password").value.s) != "" &&
       (Get(body, "role") == Some(Str("student")) ==> castId(Get(body, "teacherId").value.s).Some?) ==>
         r.status == 201)
  {
    var role := Get(body, "role");
    var teacherId := Get(body, "teacherId");
    assert role == Some(Str("student")) ==> Truthy(teacherId);
    var email := Get(body, "email").value.s;
    var password := Get(body, "password").value.s;
    var stored := StoredTeacherId(role, teacherId, castId);
    if FindByEmail(users, email).None? && hash(password) != "" && stored.Some? {
      var draft := UserDraft(Some(email), Some(hash(password)), Some(role.value.s), stored.value);
      assert InstantiateUser(draft).Some?;
    }
  }

  /** The user table `signup` writes to. */
  class UserTable {
    var users: seq<User>

    ghost predicate Valid()
      reads this
    {
      EmailsUnique(users)
    }

    constructor()
      ensures Valid() && users == []
    {
      users := [];
    }

    /** `signup`: the student check, the lookup, then hashing and saving. */
    method Signup(body: Body, hash: string -> string, castId: string -> Option<Id>) returns (r: Response)
      requires Valid()
      modifies this
      ensures Valid()
      ensures (r, users) == SignupOutcome(old(users), body, hash, castId)
    {
      SignupExact(users, body, hash, castId);
      var role := Get(body, "role");
      var teacherId := Get(body, "teacherId");
      if role == Some(Str("student")) && !Truthy(teacherId) {
        return Response(400, Failure(StudentNeedsTeacherMessage));
      }
      var email := Get(body, "email");
      var password := Get(body, "password");
      if email.Some? && email.value.Str? && FindByEmail(users, email.value.s).Some? {
        return Response(409, Failure(EmailTakenMessage));
      }
      if !(email.Some? && email.value.Str? && password.Some? && password.value.Str?) {
        return Response(500, LibraryFailure);
      }
      var passwordHash := hash(password.value.s);
      var stored := StoredTeacherId(role, teacherId, castId);
      var roleText := if role.Some? && CastString(role.value).Text? then Some(CastString(role.value).s) else None;
      if stored.None? {
        return Response(500, LibraryFailure);
      }
      var user := InstantiateUser(UserDraft(Some(email.value.s), Some(passwordHash), roleText, stored.value));
      if user.None? {
        return Response(500, LibraryFailure);
      }
      users := InsertUser(users, user.value).value;
      r := Response(201, Done(SignupDoneMessage));
    }
  }

  // ------------------------------------------------------------ login

  /** The `teacherId` the login response carries: a teacher's own id, a
      student's stored teacher. */
  function TeacherIdToSend(users: seq<User>, id: Id): (r: Option<Id>)
    requires id < |users|
    ensures users[id].role == Teacher ==> r == Some(id)
    ensures users[id].role == Student ==> r == users[id].teacherId
  {
    if users[id].role == Teacher then Some(id) else users[id].teacherId
  }

  /** `login`. A password that is not a string makes `bcrypt.compare` throw
      (500); an email that is not a string is looked up as matching no one. */
  function Login(users: seq<User>, body: Body, compare: (string, string) -> bool,
                 sign: SignRequest -> string): Response
  {
    var found := match Get(body, "email") case Some(Str(email)) => FindByEmail(users, email) case _ => None;
    match found
    case None => Response(401, Failure(BadCredentialsMessage))
    case Some(id) =>
      match Get(body, "password")
      case Some(Str(password)) =>
        if !compare(password, users[id].passwordHash) then Response(401, Failure(BadCredentialsMessage))
        else
          var token := sign(SignRequest(Payload(id, RoleName(users[id].role)), TokenLifetime));
          Response(200, LoginDone(token, users[id].role, id, TeacherIdToSend(users, id)))
      case _ => Response(500, LibraryFailure)
  }

  /** An unknown email and a wrong password get the very same answer, so the
      response does not tell which of the two was wrong. */
  lemma LoginFailuresIdentical(users: seq<User>, unknown: string, known: Id, password: string, wrong: string,
                               compare: (string, string) -> bool, sign: SignRequest -> string)
    requires EmailsUnique(users)
    requires forall i :: 0 <= i < |users| ==> users[i].email != unknown
    requires known < |users| && !compare(wrong, users[known].passwordHash)
    ensures Login(users, [("email", Str(unknown)), ("password", Str(password))], compare, sign) ==
            Login(users, [("email", Str(users[known].email)), ("password", Str(wrong))], compare, sign)
    ensures Login(users, [("email", Str(unknown)), ("password", Str(password))], compare, sign) ==
            Response(401, Failure(BadCredentialsMessage))
  {
    var b1: Body := [("email", Str(unknown)), ("password", Str(password))];
    var b2: Body := [("email", Str(users[known].email)), ("password", Str(wrong))];
    assert Get(b1, "email") == Some(Str(unknown)) && Get(b2, "email") == Some(Str(users[known].email));
    assert Get(b2, "password") == Some(Str(wrong));
    FindByEmailUnique(users, known);
  }

  /** A successful login answers with the user found for the email: a token
      signed over exactly their id and role name with a one-day lifetime, the
      role, the id, and the teacher id shaped by role. */
  lemma LoginSucceeds(users: seq<User>, body: Body, compare: (string, string) -> bool, sign: SignRequest -> string)
    ensures var r := Login(users, body, compare, sign);
      r.status in {200, 401, 500} && (r.status == 401 ==> r.body == Failure(BadCredentialsMessage))
    ensures var r := Login(users, body, compare, sign);
      r.status == 200 <==>
        Get(body, "email").Some? && Get(body, "email").value.Str? &&
        FindByEmail(users, Get(body, "email").value.s).Some? &&
        Get(body, "password").Some? && Get(body, "password").value.Str? &&
        compare(Get(body, "password").value.s, users[FindByEmail(users, Get(body, "email").value.s).value].passwordHash)
    ensures var r := Login(users, body, compare, sign);
      r.status == 200 ==>
        var id := FindByEmail(users, Get(body, "email").value.s).value;
        r.body == LoginDone(sign(SignRequest(Payload(id, RoleName(users[id].role)), "1d")),
                            users[id].role, id, if users[id].role == Teacher then Some(id) else users[id].teacherId)
  {
  }
}
