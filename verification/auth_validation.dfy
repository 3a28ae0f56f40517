/** server/validation/authValidation.js: the body schema of `POST /signup`.
    Joi stops at the first failing key (the default `abortEarly`), and the
    middleware answers 400 with that detail's message. */
module AuthValidation {
  import opened Common
  import opened UserModel
  import opened JoiRules
  import opened Http

  const SignupKeys: set<string> := {"email", "password", "role", "teacherId"}

  /** `Joi.string().email().required()`. */
  const EmailRule: StringRule := StringRule(true, true, 0, None)

  /** `Joi.string().min(6).required()`. */
  const PasswordRule: StringRule := StringRule(true, false, 6, None)

  /** `Joi.string().required()`, the `then` branch of the `teacherId` rule. */
  const TeacherIdRule: StringRule := StringRule(true, false, 0, None)

  /** `Joi.when('role', {is: 'student', then: ...})`: a literal `is` is made
      required, so the `then` schema applies only when `role` is present and
      is exactly 'student'; otherwise `teacherId` may be anything or absent. */
  function TeacherIdIssue(body: Body, isEmail: string -> bool): Option<Issue>
  {
    if Get(body, "role") == Some(Str("student"))
    then CheckString(Get(body, "teacherId"), TeacherIdRule, isEmail)
    else None
  }

  /** Every detail the schema finds, in the order Joi visits the keys: the
      listed keys (`teacherId` after the `role` it refers to), then the
      unknown keys. */
  function SignupDetails(body: Body, isEmail: string -> bool): seq<Detail>
  {
    KeyDetails("email", CheckString(Get(body, "email"), EmailRule, isEmail)) +
    KeyDetails("password", CheckString(Get(body, "password"), PasswordRule, isEmail)) +
    KeyDetails("role", CheckOneOf(Get(body, "role"), RoleNames, true)) +
    KeyDetails("teacherId", TeacherIdIssue(body, isEmail)) +
    UnknownDetails(body, SignupKeys)
  }

  /** The detail Joi reports when it aborts early: the first one. */
  function SignupDetail(body: Body, isEmail: string -> bool): Option<Detail>
  {
    var ds := SignupDetails(body, isEmail);
    if ds == [] then None else Some(ds[0])
  }

  /** The `authValidation` middleware: `None` is `next()`, otherwise the 400
      it sends. */
  function ValidateSignup(body: Body, isEmail: string -> bool): (r: Option<Response>)
    ensures r.None? <==> SignupDetail(body, isEmail).None?
    ensures r.Some? ==> r.value == Response(400, Failure(Describe(SignupDetail(body, isEmail).value)))
  {
    match SignupDetail(body, isEmail)
    case None => None
    case Some(d) => Some(Response(400, Failure(Describe(d))))
  }

  // ------------------------------------------------ reference definitions

  ghost predicate GoodEmail(v: Value, isEmail: string -> bool) { v.Str? && v.s != "" && isEmail(v.s) }

  ghost predicate GoodPassword(v: Value) { v.Str? && Utf16Length(v.s) >= 6 }

  ghost predicate GoodRole(v: Value) { v.Str? && v.s in RoleNames }

  /** What the signup schema demands, written out: the three fields present
      and well formed, a non-empty string `teacherId` for a student, and no
      other key. */
  ghost predicate SignupAcceptable(body: Body, isEmail: string -> bool)
  {
    HasKey(body, "email") && GoodEmail(Get(body, "email").value, isEmail) &&
    HasKey(body, "password") && GoodPassword(Get(body, "password").value) &&
    HasKey(body, "role") && GoodRole(Get(body, "role").value) &&
    (Get(body, "role").value == Str("student") ==>
       HasKey(body, "teacherId") && Get(body, "teacherId").value.Str? && Get(body, "teacherId").value.s != "") &&
    (forall k :: HasKey(body, k) ==> k in SignupKeys)
  }

  /** The schema accepts exactly the bodies the reference definition admits. */
  lemma SignupAcceptsExactly(body: Body, isEmail: string -> bool)
    ensures ValidateSignup(body, isEmail).None? <==> SignupAcceptable(body, isEmail)
  {
    var e := CheckString(Get(body, "email"), EmailRule, isEmail);
    var p := CheckString(Get(body, "password"), PasswordRule, isEmail);
    var t := TeacherIdIssue(body, isEmail);
    assert e.None? <==> Get(body, "email").Some? && GoodEmail(Get(body, "email").value, isEmail);
    assert p.None? <==> Get(body, "password").Some? && GoodPassword(Get(body, "password").value);
    assert t.None? <==> (Get(body, "role") == Some(Str("student")) ==>
      Get(body, "teacherId").Some? && Get(body, "teacherId").value.Str? && Get(body, "teacherId").value.s != "");
  }

  /** Joi reports the first key in schema order: a bad email hides every
      other mistake in the body. */
  lemma EmailReportedFirst(body: Body, isEmail: string -> bool)
    requires !HasKey(body, "email")
    ensures ValidateSignup(body, isEmail) == Some(Response(400, Failure(Describe(Detail("email", Required)))))
  {
  }

  /** A student whose other fields pass but who gives no `teacherId` gets
      Joi's `any.required` for that key. */
  lemma StudentWithoutTeacherIdRejected(body: Body, isEmail: string -> bool)
    requires HasKey(body, "email") && GoodEmail(Get(body, "email").value, isEmail)
    requires HasKey(body, "password") && GoodPassword(Get(body, "password").value)
    requires Get(body, "role") == Some(Str("student"))
    requires !HasKey(body, "teacherId")
    ensures ValidateSignup(body, isEmail) == Some(Response(400, Failure(Describe(Detail("teacherId", Required)))))
  {
  }

  /** For a teacher, or any body whose role is not 'student', the
      `teacherId` key is unconstrained: any value, or none, gives the same
      verdict. */
  lemma TeacherIdIgnoredUnlessStudent(body: Body, v: Value, isEmail: string -> bool)
    requires Get(body, "role") != Some(Str("student"))
    requires !HasKey(body, "teacherId")
    ensures DistinctKeys(body + [("teacherId", v)])
    ensures ValidateSignup(body + [("teacherId", v)], isEmail) == ValidateSignup(body, isEmail)
  {
    var b': Body := body + [("teacherId", v)];
    GetAfterAppend(body, "teacherId", v);
    assert Get(b', "email") == Get(body, "email");
    assert Get(b', "password") == Get(body, "password");
    assert Get(b', "role") == Get(body, "role");
    assert TeacherIdIssue(b', isEmail).None? && TeacherIdIssue(body, isEmail).None?;
    UnknownKeysAppendKnown(body, "teacherId", v, SignupKeys);
    assert SignupDetails(b', isEmail) == SignupDetails(body, isEmail);
  }

  /** Appending a key the body lacks leaves every other key's value alone. */
  lemma GetAfterAppend(body: Body, key: string, v: Value)
    requires !HasKey(body, key)
    ensures DistinctKeys(body + [(key, v)])
    ensures forall k :: k != key ==> Get(body + [(key, v)], k) == Get(body, k)
  {
    var b := body + [(key, v)];
    forall k | k != key ensures Get(b, k) == Get(body, k) {
      if HasKey(b, k) {
        var i :| 0 <= i < |b| && b[i].0 == k;
        assert body[i].0 == k;
      }
      if HasKey(body, k) {
        var i :| 0 <= i < |body| && body[i].0 == k;
        assert b[i].0 == k;
      }
    }
  }

  /** Appending a listed key adds no `object.unknown` detail. */
  lemma UnknownKeysAppendKnown(body: seq<(string, Value)>, k: string, v: Value, known: set<string>)
    requires k in known
    ensures UnknownKeys(body + [(k, v)], known) == UnknownKeys(body, known)
  {
    KeysOutsideAppendKnown(body, k, v, known, true);
    KeysOutsideAppendKnown(body, k, v, known, false);
  }

  lemma {:induction false} KeysOutsideAppendKnown(body: seq<(string, Value)>, k: string, v: Value, known: set<string>,
                                                  indices: bool)
    requires k in known
    ensures KeysOutside(body + [(k, v)], known, indices) == KeysOutside(body, known, indices)
    decreases |body|
  {
    if body == [] {
      assert [(k, v)][1..] == [];
    } else {
      assert (body + [(k, v)])[1..] == body[1..] + [(k, v)];
      KeysOutsideAppendKnown(body[1..], k, v, known, indices);
    }
  }
}
