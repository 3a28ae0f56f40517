/** The part of Joi's object validation that the application's schemas use.
    For each key the schema lists, in the schema's order: presence (a missing
    required key), then the allowed values (`valid(...)` admits only its list,
    `allow(...)` admits extra values), then the base type, then the rules in the
    order they were added. Keys the schema does not list are then rejected, in
    the order `Object.keys` lists them. Each failure is a detail; the messages
    are Joi's default templates. */
module JoiRules {
  import opened Common
  import opened JsText
  import opened TaskModel

  datatype Issue =
    | Required                     // any.required
    | NotString                    // string.base
    | Empty                        // string.empty
    | TooShort(limit: nat)         // string.min
    | TooLong(limit: nat)          // string.max
    | NotOneOf(valids: seq<string>)// any.only
    | NotDate                      // date.base
    | NotEmail                     // string.email
    | NotAllowed                   // object.unknown
    | TooFewKeys(limit: nat)       // object.min

  datatype Detail = Detail(key: string, issue: Issue)

  /** Joi's default message for a detail, labelled with the key in quotes. */
  function Describe(d: Detail): string
  {
    var quoted := "\"" + d.key + "\"";
    match d.issue
    case Required => quoted + " is required"
    case NotString => quoted + " must be a string"
    case Empty => quoted + " is not allowed to be empty"
    case TooShort(n) => quoted + " length must be at least " + NatToString(n) + " characters long"
    case TooLong(n) => quoted + " length must be less than or equal to " + NatToString(n) + " characters long"
    case NotOneOf(vs) => quoted + " must be one of [" + Join(vs, ", ") + "]"
    case NotDate => quoted + " must be a valid date"
    case NotEmail => quoted + " must be a valid email"
    case NotAllowed => quoted + " is not allowed"
    case TooFewKeys(n) => "\"value\" must have at least " + NatToString(n) + (if n == 1 then " key" else " keys")
  }

  /** Every default message opens with the quoted label, so none can be
      mistaken for a message the application writes itself. */
  lemma DescribeOpensWithQuote(d: Detail)
    ensures |Describe(d)| > 0 && Describe(d)[0] == '"'
  {
    var quoted := "\"" + d.key + "\"";
    assert quoted[0] == '"';
    match d.issue
    case TooFewKeys(n) =>
      var head := "\"value\" must have at least ";
      assert Describe(d) == head + (NatToString(n) + (if n == 1 then " key" else " keys"));
      assert head[0] == '"';
    case _ =>
      assert Describe(d)[..|quoted|] == quoted;
  }

  /** `Joi.string()` with optional `.email()`, `.min(min)`, `.max(max)` and
      `.required()`. */
  datatype StringRule = StringRule(required: bool, email: bool, min: nat, max: Option<nat>)

  function CheckString(v: Option<Value>, rule: StringRule, isEmail: string -> bool): (r: Option<Issue>)
    ensures v.None? ==> (r.Some? <==> rule.required) && (r.Some? ==> r.value == Required)
    ensures r.None? && v.Some? ==> v.value.Str? && v.value.s != "" && Utf16Length(v.value.s) >= rule.min
    ensures r.None? && v.Some? && rule.max.Some? ==> Utf16Length(v.value.s) <= rule.max.value
    ensures r.None? && v.Some? && rule.email ==> isEmail(v.value.s)
    ensures (v.Some? && v.value.Str? && v.value.s != "" && Utf16Length(v.value.s) >= rule.min &&
             (rule.max.Some? ==> Utf16Length(v.value.s) <= rule.max.value) && (rule.email ==> isEmail(v.value.s))) ==> r.None?
  {
    match v
    case None => if rule.required then Some(Required) else None
    case Some(Str(s)) =>
      if s == "" then Some(Empty)
      else if rule.email && !isEmail(s) then Some(NotEmail)
      else if Utf16Length(s) < rule.min then Some(TooShort(rule.min))
      else if rule.max.Some? && Utf16Length(s) > rule.max.value then Some(TooLong(rule.max.value))
      else None
    case Some(_) => Some(NotString)
  }

  /** `Joi.string().valid(...valids)`: every other value, of any type, fails. */
  function CheckOneOf(v: Option<Value>, valids: seq<string>, required: bool): (r: Option<Issue>)
    ensures r.None? <==> (v.None? && !required) || (v.Some? && v.value.Str? && v.value.s in valids)
    ensures r.Some? ==> r.value == (if v.None? then Required else NotOneOf(valids))
  {
    match v
    case None => if required then Some(Required) else None
    case Some(Str(s)) => if s in valids then None else Some(NotOneOf(valids))
    case Some(_) => Some(NotOneOf(valids))
  }

  /** The same schema under `abortEarly: false`, where Joi goes on to the
      base type after `any.only`: a value outside the list gets `any.only`
      and then `string.base` if it is not a string, or `string.empty` if it
      is ''; a non-empty string outside the list gets `any.only` alone. */
  function CheckOneOfAll(v: Option<Value>, valids: seq<string>, required: bool): (r: seq<Issue>)
    ensures r == [] <==> CheckOneOf(v, valids, required).None?
    ensures r != [] ==> r[0] == CheckOneOf(v, valids, required).value
    ensures |r| <= 2
    ensures |r| == 2 <==> v.Some? && (v.value.Str? ==> v.value.s == "" && v.value.s !in valids)
    ensures |r| == 2 ==> r[1] == (if v.value.Str? then Empty else NotString)
  {
    match v
    case None => if required then [Required] else []
    case Some(Str(s)) =>
      if s in valids then [] else if s == "" then [NotOneOf(valids), Empty] else [NotOneOf(valids)]
    case Some(_) => [NotOneOf(valids), NotString]
  }

  /** `^\d+(\.\d+)?$`: digits, and possibly a point and more digits. */
  predicate DigitText(u: string)
  {
    match IndexOf(u, ".")
    case None => u != "" && AllDigits(u)
    case Some(p) => 0 < p && p + 1 < |u| && AllDigits(u[..p]) && AllDigits(u[p + 1..])
  }

  /** Joi's `date()` reads a string matching `^[+-]?\d+(\.\d+)?$` as a
      number of milliseconds (its `parseFloat`): the value, for such a
      string. */
  function DigitDateValue(s: string): Option<real>
  {
    var u := Unsigned(s);
    if DigitText(u) then
      match Mantissa(u)
      case Some(x) => Some(if Negative(s) then -x else x)
      case None => None
    else None
  }

  /** What `Joi.date().allow(null, '')` makes of a value: `null` and '' are
      admitted as they are; a number is the date at that timestamp; a string
      of white space alone fails; a digit string is a number of
      milliseconds; other text goes to the date parser; every other value
      fails. */
  function JoiDate(v: Value, parseDate: string -> Option<int>): (r: DateCast)
    ensures r == NoDate <==> v.Null? || v == Str("")
    ensures v.Num? ==> (if InTimeRange(v.n) then r == Date(v.n) else r == BadDate)
    ensures v.Str? && v.s != "" && AllSpace(v.s) ==> r == BadDate
    ensures v.Str? && !AllSpace(v.s) && DigitDateValue(v.s).Some? ==> r == NumberDate(Finite(DigitDateValue(v.s).value))
    ensures v.Str? && !AllSpace(v.s) && DigitDateValue(v.s).None? ==> r == TextDate(v.s, parseDate)
    ensures v.Bool? || v.Arr? || v.Obj? ==> r == BadDate
  {
    match v
    case Null => NoDate
    case Num(n) => if InTimeRange(n) then Date(n) else BadDate
    case Str(s) =>
      if s == "" then NoDate
      else if AllSpace(s) then BadDate
      else
        (match DigitDateValue(s)
         case Some(x) => NumberDate(Finite(x))
         case None => TextDate(s, parseDate))
    case _ => BadDate
  }

  /** `Joi.date().optional().allow(null, '')`: an absent value, `null`, ''
      and any value `JoiDate` reads as a date pass. */
  function CheckDate(v: Option<Value>, parseDate: string -> Option<int>): (r: Option<Issue>)
    ensures r.None? <==>
      v.None? || v.value.Null? || v.value == Str("") || (v.value.Num? && InTimeRange(v.value.n)) ||
      (v.value.Str? && !AllSpace(v.value.s) &&
       (match DigitDateValue(v.value.s)
        case Some(x) => ValidTime(x)
        case None => parseDate(v.value.s).Some?))
    ensures r.Some? ==> r.value == NotDate
  {
    match v
    case None => None
    case Some(x) => if JoiDate(x, parseDate) == BadDate then Some(NotDate) else None
  }

  /** A digit string means the same number to `Number(s)`, so the Date cast,
      when it reads the string as a number, reads the value Joi read. */
  lemma DigitTextIsNumber(s: string)
    requires DigitDateValue(s).Some?
    ensures StringToNumber(s) == Finite(DigitDateValue(s).value)
  {
    var u := Unsigned(s);
    DigitTextIsDecimal(s);
    DigitTextUnsigned(u);
    SignedDecimalOf(s, Mantissa(u).value);
  }

  /** A digit text has no exponent and is not "Infinity": its value is its
      mantissa. */
  lemma DigitTextUnsigned(u: string)
    requires DigitText(u)
    ensures Mantissa(u).Some? && UnsignedDecimal(u) == Mantissa(u) && u != "Infinity"
  {
    DigitTextShape(u);
    NoExponentMark(u);
    assert u[0] != 'I';
  }

  lemma SignedDecimalOf(s: string, x: real)
    requires Unsigned(s) != "Infinity" && UnsignedDecimal(Unsigned(s)) == Some(x)
    ensures SignedDecimal(s) == Finite(if Negative(s) then -x else x)
  {
  }

  /** Neither white space nor a radix prefix: a digit text is read as a
      decimal literal. */
  lemma DigitTextIsDecimal(s: string)
    requires DigitText(Unsigned(s))
    ensures StringToNumber(s) == SignedDecimal(s)
  {
    var u := Unsigned(s);
    DigitTextShape(u);
    assert s[|s| - 1] == u[|u| - 1];
    assert !IsJsSpace(s[0]) by {
      assert s[0] == u[0] || s[0] == '+' || s[0] == '-';
    }
    TrimUnspaced(s);
    if |s| >= 2 && s[0] == '0' {
      assert u == s;
      assert IsDigit(s[1]) || s[1] == '.';
    }
  }

  /** A digit text starts and ends with a digit and holds nothing but
      digits and a point. */
  lemma DigitTextShape(u: string)
    requires DigitText(u)
    ensures u != "" && IsDigit(u[0]) && IsDigit(u[|u| - 1])
    ensures forall i :: 0 <= i < |u| ==> IsDigit(u[i]) || u[i] == '.'
  {
    match IndexOf(u, ".")
    case None =>
    case Some(p) =>
      assert u[p..p + 1] == "." && u[p] == '.';
      assert forall i :: 0 <= i < p ==> u[i] == u[..p][i];
      assert forall i :: p < i < |u| ==> u[i] == u[p + 1..][i - p - 1];
  }

  /** The detail list for one key: empty when the key's check passed. */
  function KeyDetails(key: string, issue: Option<Issue>): seq<Detail>
  {
    if issue.None? then [] else [Detail(key, issue.value)]
  }

  /** The detail list for one key that may fail more than one check. */
  function KeyIssues(key: string, issues: seq<Issue>): (r: seq<Detail>)
    ensures |r| == |issues| && forall i :: 0 <= i < |r| ==> r[i] == Detail(key, issues[i])
  {
    seq(|issues|, i requires 0 <= i < |issues| => Detail(key, issues[i]))
  }

  /** Some detail of `ds` is about key `k`. */
  ghost predicate Reports(ds: seq<Detail>, k: string)
  {
    exists x :: x in ds && x.key == k
  }

  lemma ReportsAppend(a: seq<Detail>, b: seq<Detail>, k: string)
    ensures Reports(a + b, k) <==> Reports(a, k) || Reports(b, k)
  {
    if Reports(a + b, k) {
      var x :| x in a + b && x.key == k;
    }
    if Reports(a, k) {
      var x :| x in a && x.key == k;
      assert x in a + b;
    }
    if Reports(b, k) {
      var x :| x in b && x.key == k;
      assert x in a + b;
    }
  }

  /** The issues of the details about key `k`, in their order. */
  function IssuesOf(ds: seq<Detail>, k: string): seq<Issue>
  {
    if ds == [] then [] else (if ds[0].key == k then [ds[0].issue] else []) + IssuesOf(ds[1..], k)
  }

  lemma {:induction false} IssuesOfAppend(a: seq<Detail>, b: seq<Detail>, k: string)
    ensures IssuesOf(a + b, k) == IssuesOf(a, k) + IssuesOf(b, k)
  {
    if a == [] {
      assert a + b == b;
    } else {
      assert (a + b)[1..] == a[1..] + b;
      IssuesOfAppend(a[1..], b, k);
    }
  }

  lemma {:induction false} IssuesOfKeyIssues(key: string, issues: seq<Issue>, k: string)
    ensures IssuesOf(KeyIssues(key, issues), k) == if key == k then issues else []
  {
    var ds := KeyIssues(key, issues);
    if issues != [] {
      assert ds[1..] == KeyIssues(key, issues[1..]);
      IssuesOfKeyIssues(key, issues[1..], k);
      assert issues == [issues[0]] + issues[1..];
    }
  }

  lemma IssuesOfKeyDetails(key: string, issue: Option<Issue>, k: string)
    ensures IssuesOf(KeyDetails(key, issue), k) == if key == k && issue.Some? then [issue.value] else []
  {
    if issue.Some? {
      assert KeyDetails(key, issue) == KeyIssues(key, [issue.value]);
      IssuesOfKeyIssues(key, [issue.value], k);
    }
  }

  lemma {:induction false} IssuesOfOtherKeys(ds: seq<Detail>, k: string)
    requires forall x :: x in ds ==> x.key != k
    ensures IssuesOf(ds, k) == []
  {
    if ds != [] {
      assert ds[0] in ds;
      assert forall x :: x in ds[1..] ==> x in ds;
      IssuesOfOtherKeys(ds[1..], k);
    }
  }

  /** One `object.unknown` detail per key the schema does not list. */
  function UnknownDetails(body: seq<(string, Value)>, known: set<string>): (r: seq<Detail>)
    ensures r == [] <==> forall k :: HasKey(body, k) ==> k in known
    ensures forall d :: d in r ==> d.issue == NotAllowed && d.key !in known && HasKey(body, d.key)
    ensures forall k :: HasKey(body, k) && k !in known ==> Detail(k, NotAllowed) in r
    ensures r != [] ==> r[0] == Detail(UnknownKeys(body, known)[0], NotAllowed)
  {
    var keys := UnknownKeys(body, known);
    assert forall k :: HasKey(body, k) && k !in known ==> k in keys;
    assert keys != [] ==> keys[0] in keys;
    var r := seq(|keys|, i requires 0 <= i < |keys| => Detail(keys[i], NotAllowed));
    assert forall i :: 0 <= i < |keys| ==> r[i] == Detail(keys[i], NotAllowed);
    r
  }

  /** The messages of a detail list, in order. */
  function Messages(ds: seq<Detail>, describe: Detail -> string): seq<string>
  {
    seq(|ds|, i requires 0 <= i < |ds| => describe(ds[i]))
  }
}
