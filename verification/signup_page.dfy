/** client/src/pages/Signup.js: the form's state, the student check and the
    payload of `handleSubmit`. The outcome of the signup call is a
    parameter; the delayed navigation is not modelled. */
module SignupPage {
  import opened Common
  import opened JoiRules
  import opened AuthValidation

  const DefaultRole: string := "student"
  const MissingTeacherText: string := "Student role requires a Teacher ID."
  const SignupDoneText: string := "Signup successful! Please log in."
  const SignupFailedText: string := "Signup failed."

  /** `userData`: email, password and role, and `teacherId` exactly for a
      student. */
  function SignupPayload(email: string, password: string, role: string, teacherId: string): (r: Body)
    ensures Get(r, "email") == Some(Str(email)) && Get(r, "password") == Some(Str(password))
    ensures Get(r, "role") == Some(Str(role))
    ensures HasKey(r, "teacherId") <==> role == "student"
    ensures role == "student" ==> Get(r, "teacherId") == Some(Str(teacherId))
    ensures forall k :: HasKey(r, k) ==> k in SignupKeys
  {
    if role == "student" then
      var fields := [("email", Str(email)), ("password", Str(password)), ("role", Str(role)), ("teacherId", Str(teacherId))];
      assert fields[0].0 == "email" && fields[1].0 == "password" && fields[2].0 == "role" && fields[3].0 == "teacherId";
      fields
    else
      var fields := [("email", Str(email)), ("password", Str(password)), ("role", Str(role))];
      assert fields[0].0 == "email" && fields[1].0 == "password" && fields[2].0 == "role";
      fields
  }

  /** Whatever the page sends, the server's `teacherId` rule is met: a
      student's payload carries the non-empty id the page insisted on, and
      anyone else's none. */
  lemma PayloadMeetsTeacherRule(email: string, password: string, role: string, teacherId: string, isEmail: string -> bool)
    requires role == "student" ==> teacherId != ""
    ensures TeacherIdIssue(SignupPayload(email, password, role, teacherId), isEmail).None?
  {
  }

  /** The outcome of the signup call. */
  datatype SignupOutcome = SignedUp | SignupFailed(message: string)

  class SignupForm {
    var email: string
    var password: string
    var role: string
    var teacherId: string
    var error: Option<string>
    var message: Option<string>

    /** The empty form, with the student role preselected. */
    constructor()
      ensures email == "" && password == "" && teacherId == "" && role == DefaultRole
      ensures error.None? && message.None?
    {
      email, password, role, teacherId := "", "", DefaultRole, "";
      error, message := None, None;
    }

    /** `handleSubmit`: the payload sent (`None` when the check stops it) and
        the messages shown afterwards; the fields are kept. */
    method HandleSubmit(outcome: SignupOutcome) returns (sent: Option<Body>)
      modifies this
      ensures email == old(email) && password == old(password) && role == old(role) && teacherId == old(teacherId)
      ensures role == "student" && teacherId == "" ==>
        sent.None? && error == Some(MissingTeacherText) && message.None?
      ensures !(role == "student" && teacherId == "") ==>
        sent == Some(SignupPayload(email, password, role, teacherId))
      ensures !(role == "student" && teacherId == "") && outcome.SignedUp? ==>
        message == Some(SignupDoneText) && error.None?
      ensures !(role == "student" && teacherId == "") && outcome.SignupFailed? ==>
        message.None? && error == Some(if outcome.message != "" then outcome.message else SignupFailedText)
    {
      error := None;
      message := None;
      if role == "student" && teacherId == "" {
        error := Some(MissingTeacherText);
        return None;
      }
      sent := Some(SignupPayload(email, password, role, teacherId));
      match outcome {
        case SignedUp =>
          message := Some(SignupDoneText);
        case SignupFailed(m) =>
          error := Some(if m != "" then m else SignupFailedText);
      }
    }
  }
}
