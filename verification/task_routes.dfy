/** server/routes/taskRoutes.js: every task route runs the auth middleware
    first; POST and PUT then run their body validation; the controller comes
    last. Each route is the composition of those steps, returning the
    response and the task collection afterwards. */
module TaskRoutes {
  import opened Common
  import opened TaskModel
  import opened UserModel
  import opened Http
  import opened AuthMiddleware
  import opened TaskValidation
  import opened TaskController
  import opened JoiRules
  import opened JsText

  /** `GET /tasks?dateFilter=...`; the filter reaches the controller as sent. */
  function GetRoute(s: Store, users: seq<User>, header: Option<string>, verify: string -> Option<Decoded>,
                    dateFilter: Option<string>, today: int): Response
  {
    match Authenticate(header, verify)
    case Err(r) => r
    case Ok(who) => Listing(s, users, who, dateFilter, today)
  }

  /** `POST /tasks`. */
  function PostRoute(s: Store, header: Option<string>, verify: string -> Option<Decoded>, body: Body,
                     now: int, parseDate: string -> Option<int>): (Response, Store)
  {
    match Authenticate(header, verify)
    case Err(r) => (r, s)
    case Ok(who) =>
      match ValidateTaskCreation(body, parseDate)
      case Some(r) => (r, s)
      case None => CreateOutcome(s, who, body, now, parseDate)
  }

  /** `PUT /tasks/:id`. */
  function PutRoute(s: Store, header: Option<string>, verify: string -> Option<Decoded>, taskId: string, body: Body,
                    parseDate: string -> Option<int>, castId: string -> Option<Id>): (Response, Store)
  {
    match Authenticate(header, verify)
    case Err(r) => (r, s)
    case Ok(who) =>
      match ValidateTaskUpdate(body, parseDate)
      case Some(r) => (r, s)
      case None => UpdateOutcome(s, who, taskId, body, parseDate, castId)
  }

  /** `DELETE /tasks/:id`. */
  function DeleteRoute(s: Store, header: Option<string>, verify: string -> Option<Decoded>, taskId: string,
                       castId: string -> Option<Id>): (Response, Store)
  {
    match Authenticate(header, verify)
    case Err(r) => (r, s)
    case Ok(who) => DeleteOutcome(s, who, taskId, castId)
  }

  /** A request that fails authentication gets the middleware's 401 on every
      route, whatever else it carries, and changes nothing. */
  lemma UnauthenticatedRejectedFirst(s: Store, users: seq<User>, header: Option<string>, verify: string -> Option<Decoded>,
                                     dateFilter: Option<string>, today: int, body: Body, now: int, taskId: string,
                                     parseDate: string -> Option<int>, castId: string -> Option<Id>)
    requires Authenticate(header, verify).Err?
    ensures var r := Authenticate(header, verify).error;
      r.status == 401 &&
      GetRoute(s, users, header, verify, dateFilter, today) == r &&
      PostRoute(s, header, verify, body, now, parseDate) == (r, s) &&
      PutRoute(s, header, verify, taskId, body, parseDate, castId) == (r, s) &&
      DeleteRoute(s, header, verify, taskId, castId) == (r, s)
  {
  }

  /** A rejected creation body is answered with 400 before the controller
      runs, so nothing is created. */
  lemma InvalidCreationRejected(s: Store, header: Option<string>, verify: string -> Option<Decoded>, body: Body,
                                now: int, parseDate: string -> Option<int>)
    requires Authenticate(header, verify).Ok?
    requires !CreationAcceptable(body, parseDate)
    ensures PostRoute(s, header, verify, body, now, parseDate).0.status == 400
    ensures PostRoute(s, header, verify, body, now, parseDate).1 == s
  {
    CreationAcceptsExactly(body, parseDate);
  }

  /** A rejected update body is answered with 400 before the task is looked
      up: it wins over a missing task (404) and over a task owned by someone
      else (403). */
  lemma InvalidUpdateRejectedBeforeLookup(s: Store, header: Option<string>, verify: string -> Option<Decoded>, taskId: string,
                                          body: Body, parseDate: string -> Option<int>, castId: string -> Option<Id>)
    requires Authenticate(header, verify).Ok?
    requires !UpdateAcceptable(body, parseDate)
    ensures PutRoute(s, header, verify, taskId, body, parseDate, castId).0.status == 400
    ensures PutRoute(s, header, verify, taskId, body, parseDate, castId).1 == s
  {
    UpdateAcceptsExactly(body, parseDate);
  }

  /** GET and DELETE validate nothing: once authenticated they are the
      controller itself, with the date filter passed on unchecked. */
  lemma GetAndDeleteUnvalidated(s: Store, users: seq<User>, header: Option<string>, verify: string -> Option<Decoded>,
                                dateFilter: Option<string>, today: int, taskId: string, castId: string -> Option<Id>)
    requires Authenticate(header, verify).Ok?
    ensures var who := Authenticate(header, verify).value;
      GetRoute(s, users, header, verify, dateFilter, today) == Listing(s, users, who, dateFilter, today) &&
      DeleteRoute(s, header, verify, taskId, castId) == DeleteOutcome(s, who, taskId, castId)
  {
  }

  // --------------------------------------- the schema against the casts

  /** The schema and the Date cast read a string as a number of
      milliseconds in different cases: Joi when it is a digit string
      (`^[+-]?\d+(\.\d+)?$`), the cast when `Number(s)` is at least 275761
      or below -271820; otherwise both hand it to the date parser. */
  predicate ReadingsDiffer(s: string)
  {
    DigitDateValue(s).Some? != NumericDateText(s)
  }

  /** A due date the schema can accept and the Date cast then refuses: a
      string the two read differently, on which the cast fails. */
  predicate CastRefusesDate(v: Option<Value>, parseDate: string -> Option<int>)
  {
    v.Some? && v.value.Str? && ReadingsDiffer(v.value.s) && CastDate(v.value, parseDate) == BadDate
  }

  /** Where the two readings agree, a due date the schema accepts is one the
      Date cast accepts. */
  lemma AcceptedDateCasts(v: Value, parseDate: string -> Option<int>)
    requires GoodDueDate(v, parseDate)
    requires !CastRefusesDate(Some(v), parseDate)
    ensures CastDate(v, parseDate) != BadDate
  {
    if v.Str? && v.s != "" && !ReadingsDiffer(v.s) && DigitDateValue(v.s).Some? {
      DigitTextIsNumber(v.s);
    }
  }

  /** The 500 of a refused cast: the string is not empty, so `|| null`
      keeps it and the cast fails. */
  lemma RefusedDateFailsCreation(v: Option<Value>, parseDate: string -> Option<int>)
    requires CastRefusesDate(v, parseDate)
    ensures CreationDueDate(v, parseDate).None?
  {
    assert v.value.s != "" by {
      assert StringToNumber("") == Finite(0.0);
      assert DigitDateValue("").None?;
    }
  }

  /** A body the creation schema accepts creates a task unless its due date
      is a string the Date cast reads differently from Joi and refuses; then
      the controller answers 500 and nothing changes. The task belongs to
      the token's user. */
  lemma AcceptedCreationSucceeds(s: Store, header: Option<string>, verify: string -> Option<Decoded>, body: Body,
                                 now: int, parseDate: string -> Option<int>)
    requires StoreValid(s)
    requires Authenticate(header, verify).Ok?
    requires CreationAcceptable(body, parseDate)
    ensures var (r, s') := PostRoute(s, header, verify, body, now, parseDate);
      (r.status == 201 <==> !CastRefusesDate(Get(body, "dueDate"), parseDate)) &&
      (r.status == 201 ==> s'.tasks[s.nextId].userId == Authenticate(header, verify).value.userId) &&
      (r.status != 201 ==> r == Response(500, Failure(CreateFailedMessage)) && s' == s)
  {
    var who := Authenticate(header, verify).value;
    CreationAcceptsExactly(body, parseDate);
    assert PostRoute(s, header, verify, body, now, parseDate) == CreateOutcome(s, who, body, now, parseDate);
    GoodFieldsCreate(s, who, body, now, parseDate);
  }

  /** Fields the creation schema accepts pass the model's casts and
      validators on save, except a due date the Date cast refuses. */
  lemma GoodFieldsCreate(s: Store, who: Identity, body: Body, now: int, parseDate: string -> Option<int>)
    requires StoreValid(s)
    requires HasKey(body, "title") && HasKey(body, "description") && FieldsGood(body, parseDate)
    ensures var (r, s') := CreateOutcome(s, who, body, now, parseDate);
      (r.status == 201 <==> !CastRefusesDate(Get(body, "dueDate"), parseDate)) &&
      (r.status == 201 ==> s'.tasks[s.nextId].userId == who.userId) &&
      (r.status != 201 ==> r == Response(500, Failure(CreateFailedMessage)) && s' == s)
  {
    assert TruthyText(TextField(Get(body, "title")));
    assert TruthyText(TextField(Get(body, "description")));
    var v := Get(body, "dueDate");
    if CastRefusesDate(v, parseDate) {
      RefusedDateFailsCreation(v, parseDate);
    } else if Truthy(v) {
      AcceptedDateCasts(v.value, parseDate);
    }
    CreateExact(s, who, body, now, parseDate);
  }

  /** An accepted update body on a task the requester owns succeeds unless
      its due date is a string the Date cast reads differently from Joi and
      refuses; then the controller answers 500 and nothing changes. */
  lemma AcceptedOwnUpdateSucceeds(s: Store, header: Option<string>, verify: string -> Option<Decoded>, taskId: string,
                                  body: Body, parseDate: string -> Option<int>, castId: string -> Option<Id>)
    requires StoreValid(s)
    requires Authenticate(header, verify).Ok?
    requires UpdateAcceptable(body, parseDate)
    requires castId(taskId).Some? && castId(taskId).value in s.tasks
    requires s.tasks[castId(taskId).value].userId == Authenticate(header, verify).value.userId
    ensures var (r, s') := PutRoute(s, header, verify, taskId, body, parseDate, castId);
      (r.status == 200 <==> !CastRefusesDate(Get(body, "dueDate"), parseDate)) &&
      (r.status != 200 ==> r == Response(500, Failure(UpdateFailedMessage)) && s' == s)
  {
    var who := Authenticate(header, verify).value;
    UpdateAcceptsExactly(body, parseDate);
    assert PutRoute(s, header, verify, taskId, body, parseDate, castId) == UpdateOutcome(s, who, taskId, body, parseDate, castId);
    AcceptedUpdatePatches(body, parseDate, castId);
  }

  /** A body the update schema accepts reads as a patch unless the Date
      cast refuses its due date. */
  lemma AcceptedUpdatePatches(body: Body, parseDate: string -> Option<int>, castId: string -> Option<Id>)
    requires ValidateTaskUpdate(body, parseDate).None?
    ensures ReadPatch(body, parseDate, castId).Some? <==> !CastRefusesDate(Get(body, "dueDate"), parseDate)
  {
    UpdateAcceptsExactly(body, parseDate);
    AcceptedUpdateNamesNoOwner(body, parseDate);
    GoodFieldsPatch(body, parseDate, castId);
  }

  /** Fields the schemas accept pass the `$set` casts and validators, when
      the body leaves the owner and the creation time alone, except a due
      date the Date cast refuses. */
  lemma GoodFieldsPatch(body: Body, parseDate: string -> Option<int>, castId: string -> Option<Id>)
    requires FieldsGood(body, parseDate)
    requires !HasKey(body, "userId") && !HasKey(body, "createdAt")
    ensures ReadPatch(body, parseDate, castId).Some? <==> !CastRefusesDate(Get(body, "dueDate"), parseDate)
  {
    assert PatchOwner(Get(body, "userId"), castId).Some?;
    assert PatchText(Get(body, "title")).Some?;
    assert PatchText(Get(body, "description")).Some?;
    assert PatchProgress(Get(body, "progress")).Some?;
    assert PatchDate(Get(body, "createdAt"), parseDate).Some?;
    var v := Get(body, "dueDate");
    if v.Some? && !CastRefusesDate(v, parseDate) {
      AcceptedDateCasts(v.value, parseDate);
    }
  }

  /** An update the route answers with 200 keeps the task's owner and
      creation time: the controller would `$set` them from the body, but the
      update schema refuses a body naming either. */
  lemma AcceptedUpdateKeepsOwner(s: Store, header: Option<string>, verify: string -> Option<Decoded>, taskId: string,
                                 body: Body, parseDate: string -> Option<int>, castId: string -> Option<Id>)
    requires StoreValid(s)
    ensures var (r, s') := PutRoute(s, header, verify, taskId, body, parseDate, castId);
      r.status == 200 ==>
        var id := castId(taskId).value;
        id in s.tasks && id in s'.tasks &&
        s'.tasks[id].userId == s.tasks[id].userId && s'.tasks[id].createdAt == s.tasks[id].createdAt
  {
    if Authenticate(header, verify).Ok? && ValidateTaskUpdate(body, parseDate).None? {
      var who := Authenticate(header, verify).value;
      assert PutRoute(s, header, verify, taskId, body, parseDate, castId) == UpdateOutcome(s, who, taskId, body, parseDate, castId);
      AcceptedUpdateNamesNoOwner(body, parseDate);
      UpdateKeepsUnnamedPaths(s, who, taskId, body, parseDate, castId);
    }
  }

  // ------------------------------------- a digit string as the due date

  /** The body `{"title": "t", "description": "d", "dueDate": "13"}`. */
  const DigitDueDateBody: Body := [("title", Str("t")), ("description", Str("d")), ("dueDate", Str("13"))]

  /** "13" is a digit string: Joi reads it as 13 ms after the epoch, while
      `Number("13")` is too close to the epoch for the Date cast, which hands
      the text to the date parser. */
  lemma DigitDueDateReadings()
    ensures DigitDateValue("13") == Some(13.0)
    ensures !NumericDateText("13")
  {
    var u := Unsigned("13");
    assert u == "13";
    assert IndexOf(u, ".").None? by {
      CharNotFound(u, '.', 0);
    }
    assert AllDigits(u);
    assert u[..1] == "1" && "1"[..0] == "";
    assert DigitsValue(u) == 13;
    assert DigitText(u) && Mantissa(u) == Some(13.0);
    DigitTextIsNumber("13");
  }

  /** The creation schema accepts the body above, whatever the date
      parser does. */
  lemma DigitDueDateBodyAccepted(parseDate: string -> Option<int>)
    ensures Get(DigitDueDateBody, "dueDate") == Some(Str("13"))
    ensures CreationAcceptable(DigitDueDateBody, parseDate)
  {
    var b := DigitDueDateBody;
    assert b[0].0 == "title" && b[1].0 == "description" && b[2].0 == "dueDate";
    assert Get(b, "title") == Some(Str("t"));
    assert Get(b, "description") == Some(Str("d"));
    assert Get(b, "dueDate") == Some(Str("13"));
    assert !HasKey(b, "progress");
    assert OnlyTaskKeys(b);
    assert GoodTitle(Str("t"));
    DigitDueDateGood(parseDate);
  }

  lemma DigitDueDateGood(parseDate: string -> Option<int>)
    ensures GoodDueDate(Str("13"), parseDate)
  {
    DigitDueDateReadings();
    assert !AllSpace("13") by {
      assert !IsJsSpace("13"[0]);
    }
    assert ValidTime(13.0);
  }

  /** As written: with a date parser that refuses the text "13", the
      creation schema accepts the body, yet the controller answers 500. */
  lemma DigitDueDateFailsAfterValidation(s: Store, header: Option<string>, verify: string -> Option<Decoded>,
                                         now: int, parseDate: string -> Option<int>)
    requires StoreValid(s)
    requires Authenticate(header, verify).Ok?
    requires parseDate("13").None?
    ensures ValidateTaskCreation(DigitDueDateBody, parseDate).None?
    ensures PostRoute(s, header, verify, DigitDueDateBody, now, parseDate) == (Response(500, Failure(CreateFailedMessage)), s)
  {
    var b := DigitDueDateBody;
    DigitDueDateBodyAccepted(parseDate);
    CreationAcceptsExactly(b, parseDate);
    DigitDueDateRefused(parseDate);
    AcceptedCreationSucceeds(s, header, verify, b, now, parseDate);
  }

  /** A parser that refuses "13" makes the Date cast refuse it too. */
  lemma DigitDueDateRefused(parseDate: string -> Option<int>)
    requires parseDate("13").None?
    ensures CastRefusesDate(Some(Str("13")), parseDate)
  {
    DigitDueDateReadings();
    assert CastDate(Str("13"), parseDate) == TextDate("13", parseDate);
  }

  /** Corrected: the due date stored is the one Joi's `date()` read (the
      validated value), with the controller's `|| null` kept. */
  function IntendedCreationDueDate(v: Option<Value>, parseDate: string -> Option<int>): (r: Option<Option<int>>)
    ensures !Truthy(v) ==> r == Some(None)
    ensures Truthy(v) ==> (r.Some? <==> JoiDate(v.value, parseDate).Date?)
    ensures Truthy(v) && r.Some? ==> r.value == Some(JoiDate(v.value, parseDate).ms)
  {
    if !Truthy(v) then Some(None)
    else
      match JoiDate(v.value, parseDate)
      case NoDate => Some(None)
      case Date(ms) => Some(Some(ms))
      case BadDate => None
  }

  /** `POST /tasks` with the corrected due date. */
  function IntendedPostRoute(s: Store, header: Option<string>, verify: string -> Option<Decoded>, body: Body,
                             now: int, parseDate: string -> Option<int>): (Response, Store)
  {
    match Authenticate(header, verify)
    case Err(r) => (r, s)
    case Ok(who) =>
      match ValidateTaskCreation(body, parseDate)
      case Some(r) => (r, s)
      case None => CreateWithDueDate(s, who, body, now, IntendedCreationDueDate(Get(body, "dueDate"), parseDate))
  }

  /** With the corrected due date every body the creation schema accepts
      creates a task, owned by the token's user and due when Joi read. */
  lemma IntendedCreationSucceeds(s: Store, header: Option<string>, verify: string -> Option<Decoded>, body: Body,
                                 now: int, parseDate: string -> Option<int>)
    requires StoreValid(s)
    requires Authenticate(header, verify).Ok?
    requires CreationAcceptable(body, parseDate)
    ensures var (r, s') := IntendedPostRoute(s, header, verify, body, now, parseDate);
      r.status == 201 && s.nextId in s'.tasks && s'.tasks[s.nextId].userId == Authenticate(header, verify).value.userId &&
      Some(s'.tasks[s.nextId].dueDate) == IntendedCreationDueDate(Get(body, "dueDate"), parseDate)
  {
    var who := Authenticate(header, verify).value;
    CreationAcceptsExactly(body, parseDate);
    var due := IntendedCreationDueDate(Get(body, "dueDate"), parseDate);
    assert due.Some?;
    assert TruthyText(TextField(Get(body, "title")));
    assert TruthyText(TextField(Get(body, "description")));
    CreateWithDueDateExact(s, who, body, now, due);
  }

  /** The corrected route on the body above creates the task, due 13 ms
      after the epoch. */
  lemma IntendedDigitDueDateCreated(s: Store, header: Option<string>, verify: string -> Option<Decoded>,
                                    now: int, parseDate: string -> Option<int>)
    requires StoreValid(s)
    requires Authenticate(header, verify).Ok?
    ensures var (r, s') := IntendedPostRoute(s, header, verify, DigitDueDateBody, now, parseDate);
      r.status == 201 && s.nextId in s'.tasks && s'.tasks[s.nextId].dueDate == Some(13)
  {
    DigitDueDateBodyAccepted(parseDate);
    IntendedDigitDueDate(parseDate);
    IntendedStoresJoiReading(s, header, verify, DigitDueDateBody, now, parseDate, 13);
  }

  /** An accepted body whose due date Joi reads as `ms` is stored due at
      `ms` by the corrected route. */
  lemma IntendedStoresJoiReading(s: Store, header: Option<string>, verify: string -> Option<Decoded>, body: Body,
                                 now: int, parseDate: string -> Option<int>, ms: int)
    requires StoreValid(s)
    requires Authenticate(header, verify).Ok?
    requires CreationAcceptable(body, parseDate)
    requires IntendedCreationDueDate(Get(body, "dueDate"), parseDate) == Some(Some(ms))
    ensures var (r, s') := IntendedPostRoute(s, header, verify, body, now, parseDate);
      r.status == 201 && s.nextId in s'.tasks && s'.tasks[s.nextId].dueDate == Some(ms)
  {
    IntendedCreationSucceeds(s, header, verify, body, now, parseDate);
  }

  lemma IntendedDigitDueDate(parseDate: string -> Option<int>)
    ensures IntendedCreationDueDate(Some(Str("13")), parseDate) == Some(Some(13))
  {
    DigitDueDateJoiReading(parseDate);
  }

  /** Joi reads "13" as 13 ms after the epoch. */
  lemma DigitDueDateJoiReading(parseDate: string -> Option<int>)
    ensures JoiDate(Str("13"), parseDate) == Date(13)
  {
    DigitDueDateReadings();
    assert !AllSpace("13") by {
      assert !IsJsSpace("13"[0]);
    }
    JoiDigitReading("13", 13.0, parseDate);
    assert NumberDate(Finite(13.0)) == Date(13) by {
      assert ValidTime(13.0) && Truncate(13.0) == 13;
    }
  }

  lemma JoiDigitReading(s: string, x: real, parseDate: string -> Option<int>)
    requires !AllSpace(s) && DigitDateValue(s) == Some(x)
    ensures JoiDate(Str(s), parseDate) == NumberDate(Finite(x))
  {
  }
}
