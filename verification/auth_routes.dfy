/** server/routes/authRoutes.js: `POST /signup` runs the signup validation
    before the controller; `POST /login` goes straight to the controller.
    Neither runs the auth middleware, so the `Authorization` header is read
    by neither. */
module AuthRoutes {
  import opened Common
  import opened UserModel
  import opened Http
  import opened JoiRules
  import opened AuthValidation
  import opened AuthController

  function SignupRoute(users: seq<User>, header: Option<string>, body: Body, isEmail: string -> bool,
                       hash: string -> string, castId: string -> Option<Id>): (Response, seq<User>)
  {
    match ValidateSignup(body, isEmail)
    case Some(r) => (r, users)
    case None => SignupOutcome(users, body, hash, castId)
  }

  function LoginRoute(users: seq<User>, header: Option<string>, body: Body, compare: (string, string) -> bool,
                      sign: SignRequest -> string): Response
  {
    Login(users, body, compare, sign)
  }

  /** A body the schema rejects gets 400 with Joi's message, never the 409 of
      a taken email, and the table is unchanged. */
  lemma InvalidSignupRejected(users: seq<User>, header: Option<string>, body: Body, isEmail: string -> bool,
                              hash: string -> string, castId: string -> Option<Id>)
    requires !SignupAcceptable(body, isEmail)
    ensures var (r, users') := SignupRoute(users, header, body, isEmail, hash, castId);
      r.status == 400 && r.body.Failure? && r.body != Failure(StudentNeedsTeacherMessage) && users' == users
  {
    SignupAcceptsExactly(body, isEmail);
    var d := SignupDetail(body, isEmail).value;
    DescribeOpensWithQuote(d);
    assert StudentNeedsTeacherMessage[0] == 'S';
  }

  /** Behind the schema the controller's own student check never fires, and
      a body with a fresh email signs up unless the teacher id fails to cast. */
  lemma AcceptedSignupOutcome(users: seq<User>, header: Option<string>, body: Body, isEmail: string -> bool,
                              hash: string -> string, castId: string -> Option<Id>)
    requires EmailsUnique(users)
    requires SignupAcceptable(body, isEmail)
    ensures var (r, users') := SignupRoute(users, header, body, isEmail, hash, castId);
      r.status != 400 &&
      (r.status == 409 <==> FindByEmail(users, Get(body, "email").value.s).Some?) &&
      (FindByEmail(users, Get(body, "email").value.s).None? && hash(Get(body, "password").value.s) != "" &&
       (Get(body, "role") == Some(Str("student")) ==> castId(Get(body, "teacherId").value.s).Some?) ==>
         r.status == 201)
  {
    SignupAcceptsExactly(body, isEmail);
    assert SignupRoute(users, header, body, isEmail, hash, castId) == SignupOutcome(users, body, hash, castId);
    WellFormedSignup(users, body, hash, castId);
  }

  /** Neither route depends on the `Authorization` header. */
  lemma NoTokenNeeded(users: seq<User>, h1: Option<string>, h2: Option<string>, body: Body, isEmail: string -> bool,
                      hash: string -> string, castId: string -> Option<Id>,
                      compare: (string, string) -> bool, sign: SignRequest -> string)
    ensures SignupRoute(users, h1, body, isEmail, hash, castId) == SignupRoute(users, h2, body, isEmail, hash, castId)
    ensures LoginRoute(users, h1, body, compare, sign) == LoginRoute(users, h2, body, compare, sign)
  {
  }

  /** Login validates nothing: it is the controller itself. */
  lemma LoginUnvalidated(users: seq<User>, header: Option<string>, body: Body,
                         compare: (string, string) -> bool, sign: SignRequest -> string)
    ensures LoginRoute(users, header, body, compare, sign) == Login(users, body, compare, sign)
  {
  }
}
