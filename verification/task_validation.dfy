/** server/validation/taskValidation.js: the body schemas of `POST /tasks`
    (all errors reported) and `PUT /tasks/:id` (first error reported, at least
    one key). Both are closed: a key they do not list is rejected, so no body
    that passes can carry `userId`, `createdAt` or `_id`. */
module TaskValidation {
  import opened Common
  import opened TaskModel
  import opened JoiRules
  import opened JsText
  import opened Http

  const TaskKeys: set<string> := {"title", "description", "dueDate", "progress"}

  const AtLeastOneFieldMessage: string :=
    "At least one field (title, description, dueDate, or progress) is required for update."

  /** `Joi.string().min(1).max(255)`, required on creation. */
  function TitleRule(required: bool): StringRule { StringRule(required, false, 1, Some(255)) }

  /** `Joi.string().min(1)`, required on creation. */
  function DescriptionRule(required: bool): StringRule { StringRule(required, false, 1, None) }

  function NoEmail(s: string): bool { false }

  /** Every detail Joi collects without `abortEarly`: the listed keys in
      schema order (the progress key can carry two), then the unknown keys. */
  function TaskDetails(body: Body, required: bool, parseDate: string -> Option<int>): seq<Detail>
  {
    KeyDetails("title", CheckString(Get(body, "title"), TitleRule(required), NoEmail)) +
    KeyDetails("description", CheckString(Get(body, "description"), DescriptionRule(required), NoEmail)) +
    KeyDetails("dueDate", CheckDate(Get(body, "dueDate"), parseDate)) +
    KeyIssues("progress", CheckOneOfAll(Get(body, "progress"), ProgressNames, false)) +
    UnknownDetails(body, TaskKeys)
  }

  /** `taskSchema.validate(body, {abortEarly: false})`: every detail. */
  function CreationDetails(body: Body, parseDate: string -> Option<int>): seq<Detail>
  {
    TaskDetails(body, true, parseDate)
  }

  /** `updateSchema.validate(body)`: Joi stops at the first detail it
      would have collected; the `min(1)` rule on the object runs only once
      every key has passed. */
  function UpdateDetail(body: Body, parseDate: string -> Option<int>): Option<Detail>
  {
    var ds := TaskDetails(body, false, parseDate);
    if ds != [] then Some(ds[0])
    else if |body| < 1 then Some(Detail("value", TooFewKeys(1)))
    else None
  }

  /** The update schema's custom message for `object.min`. */
  function UpdateMessage(d: Detail): string
  {
    if d.issue.TooFewKeys? then AtLeastOneFieldMessage else Describe(d)
  }

  /** The `validateTaskCreation` middleware: `None` is `next()`, otherwise
      the 400 it sends, listing every message joined by ', '. */
  function ValidateTaskCreation(body: Body, parseDate: string -> Option<int>): (r: Option<Response>)
    ensures r.None? <==> CreationDetails(body, parseDate) == []
    ensures r.Some? ==> r.value == Response(400, Failure(Join(Messages(CreationDetails(body, parseDate), Describe), ", ")))
  {
    var ds := CreationDetails(body, parseDate);
    if ds == [] then None
    else Some(Response(400, Failure(Join(Messages(ds, Describe), ", "))))
  }

  /** The `validateTaskUpdate` middleware: `None` is `next()`, otherwise the
      400 it sends with the first detail's message only. */
  function ValidateTaskUpdate(body: Body, parseDate: string -> Option<int>): (r: Option<Response>)
    ensures r.None? <==> UpdateDetail(body, parseDate).None?
    ensures r.Some? ==> r.value == Response(400, Failure(UpdateMessage(UpdateDetail(body, parseDate).value)))
  {
    match UpdateDetail(body, parseDate)
    case None => None
    case Some(d) => Some(Response(400, Failure(UpdateMessage(d))))
  }

  // ------------------------------------------------ reference definitions

  /** A title Joi accepts: a string of 1 to 255 UTF-16 code units. */
  ghost predicate GoodTitle(v: Value) { v.Str? && 1 <= Utf16Length(v.s) <= 255 }

  /** A description Joi accepts: a non-empty string. */
  ghost predicate GoodDescription(v: Value) { v.Str? && v.s != "" }

  /** A due date Joi accepts: `null`, '', a timestamp, a digit string whose
      number of milliseconds is a valid time, or other text (not white
      space alone) that the date parser reads. */
  ghost predicate GoodDueDate(v: Value, parseDate: string -> Option<int>)
  {
    v.Null? || v == Str("") || (v.Num? && InTimeRange(v.n)) ||
    (v.Str? && !AllSpace(v.s) &&
     if DigitDateValue(v.s).Some? then ValidTime(DigitDateValue(v.s).value) else parseDate(v.s).Some?)
  }

  /** A progress Joi accepts: one of the three spellings. */
  ghost predicate GoodProgress(v: Value) { v.Str? && v.s in ProgressNames }

  ghost predicate OnlyTaskKeys(body: Body) { forall k :: HasKey(body, k) ==> k in TaskKeys }

  ghost predicate FieldsGood(body: Body, parseDate: string -> Option<int>)
  {
    (Get(body, "title").Some? ==> GoodTitle(Get(body, "title").value)) &&
    (Get(body, "description").Some? ==> GoodDescription(Get(body, "description").value)) &&
    (Get(body, "dueDate").Some? ==> GoodDueDate(Get(body, "dueDate").value, parseDate)) &&
    (Get(body, "progress").Some? ==> GoodProgress(Get(body, "progress").value))
  }

  /** What the creation schema demands, written out. */
  ghost predicate CreationAcceptable(body: Body, parseDate: string -> Option<int>)
  {
    HasKey(body, "title") && HasKey(body, "description") && FieldsGood(body, parseDate) && OnlyTaskKeys(body)
  }

  /** What the update schema demands, written out. */
  ghost predicate UpdateAcceptable(body: Body, parseDate: string -> Option<int>)
  {
    |body| >= 1 && FieldsGood(body, parseDate) && OnlyTaskKeys(body)
  }

  lemma {:induction false} TaskDetailsEmpty(body: Body, required: bool, parseDate: string -> Option<int>)
    ensures TaskDetails(body, required, parseDate) == [] <==>
      (required ==> HasKey(body, "title") && HasKey(body, "description")) &&
      FieldsGood(body, parseDate) && OnlyTaskKeys(body)
  {
    var t := CheckString(Get(body, "title"), TitleRule(required), NoEmail);
    var d := CheckString(Get(body, "description"), DescriptionRule(required), NoEmail);
    assert t.None? <==> ((Get(body, "title").None? && !required) ||
                         (Get(body, "title").Some? && GoodTitle(Get(body, "title").value)));
    assert d.None? <==> ((Get(body, "description").None? && !required) ||
                         (Get(body, "description").Some? && GoodDescription(Get(body, "description").value)));
  }

  /** Creation accepts exactly the bodies with a title of 1 to 255 UTF-16 code units, a
      non-empty description, an acceptable due date and progress if present,
      and no other key. */
  lemma CreationAcceptsExactly(body: Body, parseDate: string -> Option<int>)
    ensures ValidateTaskCreation(body, parseDate).None? <==> CreationAcceptable(body, parseDate)
  {
    TaskDetailsEmpty(body, true, parseDate);
  }

  /** Update accepts exactly the non-empty bodies whose present fields obey
      the creation constraints, with no other key. */
  lemma UpdateAcceptsExactly(body: Body, parseDate: string -> Option<int>)
    ensures ValidateTaskUpdate(body, parseDate).None? <==> UpdateAcceptable(body, parseDate)
  {
    TaskDetailsEmpty(body, false, parseDate);
  }

  /** Whether key `k` of the body fails a task schema: a listed key that is
      missing while required, or present with a value its rule refuses, or a
      key the schema does not list. */
  ghost predicate KeyFails(body: Body, required: bool, k: string, parseDate: string -> Option<int>)
  {
    if k == "title" then (if HasKey(body, k) then !GoodTitle(Get(body, k).value) else required)
    else if k == "description" then (if HasKey(body, k) then !GoodDescription(Get(body, k).value) else required)
    else if k == "dueDate" then HasKey(body, k) && !GoodDueDate(Get(body, k).value, parseDate)
    else if k == "progress" then HasKey(body, k) && !GoodProgress(Get(body, k).value)
    else HasKey(body, k)
  }

  /** The issues of the four listed keys, written out against the reference
      predicates. */
  lemma ListedIssues(body: Body, required: bool, parseDate: string -> Option<int>)
    ensures CheckString(Get(body, "title"), TitleRule(required), NoEmail).Some? <==> KeyFails(body, required, "title", parseDate)
    ensures CheckString(Get(body, "description"), DescriptionRule(required), NoEmail).Some? <==>
      KeyFails(body, required, "description", parseDate)
    ensures CheckDate(Get(body, "dueDate"), parseDate).Some? <==> KeyFails(body, required, "dueDate", parseDate)
    ensures CheckOneOf(Get(body, "progress"), ProgressNames, false).Some? <==> KeyFails(body, required, "progress", parseDate)
  {
  }

  /** Creation reports every failing key: a listed key, or a key the
      schema does not list, has a detail exactly when it fails; a failing
      title, description or due date has one, a failing progress the
      details of `ProgressIssues`; and the 400 lists the messages of all the
      details. */
  lemma CreationReportsEveryFailure(body: Body, parseDate: string -> Option<int>)
    ensures var ds := CreationDetails(body, parseDate);
      (Reports(ds, "title") <==> KeyFails(body, true, "title", parseDate)) &&
      (Reports(ds, "description") <==> KeyFails(body, true, "description", parseDate)) &&
      (Reports(ds, "dueDate") <==> KeyFails(body, true, "dueDate", parseDate)) &&
      (Reports(ds, "progress") <==> KeyFails(body, true, "progress", parseDate))
    ensures var ds := CreationDetails(body, parseDate);
      |IssuesOf(ds, "title")| == (if KeyFails(body, true, "title", parseDate) then 1 else 0) &&
      |IssuesOf(ds, "description")| == (if KeyFails(body, true, "description", parseDate) then 1 else 0) &&
      |IssuesOf(ds, "dueDate")| == (if KeyFails(body, true, "dueDate", parseDate) then 1 else 0) &&
      IssuesOf(ds, "progress") == ProgressIssues(body, parseDate)
    ensures forall k :: k !in TaskKeys ==> (Reports(CreationDetails(body, parseDate), k) <==> HasKey(body, k))
    ensures ValidateTaskCreation(body, parseDate).Some? ==>
      ValidateTaskCreation(body, parseDate).value ==
        Response(400, Failure(Join(Messages(CreationDetails(body, parseDate), Describe), ", ")))
  {
    ListedIssues(body, true, parseDate);
    CreationIssuesByKey(body, parseDate);
    DetailsByKey(body, true, parseDate, "title");
    DetailsByKey(body, true, parseDate, "description");
    DetailsByKey(body, true, parseDate, "dueDate");
    DetailsByKey(body, true, parseDate, "progress");
    forall k | k !in TaskKeys
      ensures Reports(CreationDetails(body, parseDate), k) <==> HasKey(body, k)
    {
      DetailsByKey(body, true, parseDate, k);
    }
  }

  /** What the creation schema reports about the progress key, written
      out: nothing for an absent or listed value; otherwise `any.only`,
      followed by `string.base` for a value that is not a string and by
      `string.empty` for ''. */
  ghost function ProgressIssues(body: Body, parseDate: string -> Option<int>): seq<Issue>
  {
    if !KeyFails(body, true, "progress", parseDate) then []
    else match Get(body, "progress").value
      case Str(s) => if s == "" then [NotOneOf(ProgressNames), Empty] else [NotOneOf(ProgressNames)]
      case _ => [NotOneOf(ProgressNames), NotString]
  }

  /** The issues the creation details carry for each listed key: one for a
      failing title, description or due date, and `ProgressIssues` for the
      progress key. */
  lemma CreationIssuesByKey(body: Body, parseDate: string -> Option<int>)
    ensures var ds := CreationDetails(body, parseDate);
      |IssuesOf(ds, "title")| == (if KeyFails(body, true, "title", parseDate) then 1 else 0) &&
      |IssuesOf(ds, "description")| == (if KeyFails(body, true, "description", parseDate) then 1 else 0) &&
      |IssuesOf(ds, "dueDate")| == (if KeyFails(body, true, "dueDate", parseDate) then 1 else 0) &&
      IssuesOf(ds, "progress") == ProgressIssues(body, parseDate)
  {
    ListedIssues(body, true, parseDate);
    CreationIssuesOfChecks(body, parseDate);
    ProgressIssuesChecked(body, parseDate);
  }

  /** The issues of each listed key are those its own check gives. */
  lemma CreationIssuesOfChecks(body: Body, parseDate: string -> Option<int>)
    ensures var ds := CreationDetails(body, parseDate);
      var ti := CheckString(Get(body, "title"), TitleRule(true), NoEmail);
      var di := CheckString(Get(body, "description"), DescriptionRule(true), NoEmail);
      var dd := CheckDate(Get(body, "dueDate"), parseDate);
      IssuesOf(ds, "title") == (if ti.Some? then [ti.value] else []) &&
      IssuesOf(ds, "description") == (if di.Some? then [di.value] else []) &&
      IssuesOf(ds, "dueDate") == (if dd.Some? then [dd.value] else []) &&
      IssuesOf(ds, "progress") == CheckOneOfAll(Get(body, "progress"), ProgressNames, false)
  {
    var ti := CheckString(Get(body, "title"), TitleRule(true), NoEmail);
    var di := CheckString(Get(body, "description"), DescriptionRule(true), NoEmail);
    var dd := CheckDate(Get(body, "dueDate"), parseDate);
    var pi := CheckOneOfAll(Get(body, "progress"), ProgressNames, false);
    var u := UnknownDetails(body, TaskKeys);
    IssuesOfParts(ti, di, dd, pi, u, "title");
    IssuesOfParts(ti, di, dd, pi, u, "description");
    IssuesOfParts(ti, di, dd, pi, u, "dueDate");
    IssuesOfParts(ti, di, dd, pi, u, "progress");
  }

  /** The issues of one listed key in a detail list built in schema order. */
  lemma IssuesOfParts(title: Option<Issue>, description: Option<Issue>, dueDate: Option<Issue>,
                      progress: seq<Issue>, u: seq<Detail>, k: string)
    requires k in TaskKeys && forall x :: x in u ==> x.key !in TaskKeys
    ensures IssuesOf(KeyDetails("title", title) + KeyDetails("description", description) +
                     KeyDetails("dueDate", dueDate) + KeyIssues("progress", progress) + u, k) ==
      (if k == "title" && title.Some? then [title.value] else []) +
      (if k == "description" && description.Some? then [description.value] else []) +
      (if k == "dueDate" && dueDate.Some? then [dueDate.value] else []) +
      (if k == "progress" then progress else [])
  {
    var t := KeyDetails("title", title);
    var d := KeyDetails("description", description);
    var due := KeyDetails("dueDate", dueDate);
    var p := KeyIssues("progress", progress);
    IssuesOfAppend(t + d + due + p, u, k);
    IssuesOfAppend(t + d + due, p, k);
    IssuesOfAppend(t + d, due, k);
    IssuesOfAppend(t, d, k);
    IssuesOfOtherKeys(u, k);
    IssuesOfKeyDetails("title", title, k);
    IssuesOfKeyDetails("description", description, k);
    IssuesOfKeyDetails("dueDate", dueDate, k);
    IssuesOfKeyIssues("progress", progress, k);
  }

  /** The progress check's issues are the ones `ProgressIssues` writes out. */
  lemma ProgressIssuesChecked(body: Body, parseDate: string -> Option<int>)
    ensures CheckOneOfAll(Get(body, "progress"), ProgressNames, false) == ProgressIssues(body, parseDate)
  {
    assert "" !in ProgressNames;
  }

  /** Whether key `k` carries a detail: a listed key exactly when its check
      fails, any other key exactly when the body has it. */
  lemma DetailsByKey(body: Body, required: bool, parseDate: string -> Option<int>, k: string)
    ensures Reports(TaskDetails(body, required, parseDate), k) <==>
      (k == "title" && CheckString(Get(body, "title"), TitleRule(required), NoEmail).Some?) ||
      (k == "description" && CheckString(Get(body, "description"), DescriptionRule(required), NoEmail).Some?) ||
      (k == "dueDate" && CheckDate(Get(body, "dueDate"), parseDate).Some?) ||
      (k == "progress" && CheckOneOf(Get(body, "progress"), ProgressNames, false).Some?) ||
      (HasKey(body, k) && k !in TaskKeys)
  {
    var u := UnknownDetails(body, TaskKeys);
    ReportsOfParts(CheckString(Get(body, "title"), TitleRule(required), NoEmail),
                   CheckString(Get(body, "description"), DescriptionRule(required), NoEmail),
                   CheckDate(Get(body, "dueDate"), parseDate),
                   CheckOneOfAll(Get(body, "progress"), ProgressNames, false), u, k);
    if HasKey(body, k) && k !in TaskKeys {
      assert Detail(k, NotAllowed) in u;
    }
  }

  /** The keys of a detail list built in schema order. */
  lemma ReportsOfParts(title: Option<Issue>, description: Option<Issue>, dueDate: Option<Issue>,
                       progress: seq<Issue>, u: seq<Detail>, k: string)
    ensures Reports(KeyDetails("title", title) + KeyDetails("description", description) +
                    KeyDetails("dueDate", dueDate) + KeyIssues("progress", progress) + u, k) <==>
      (k == "title" && title.Some?) || (k == "description" && description.Some?) ||
      (k == "dueDate" && dueDate.Some?) || (k == "progress" && progress != []) || Reports(u, k)
  {
    var t := KeyDetails("title", title);
    var d := KeyDetails("description", description);
    var due := KeyDetails("dueDate", dueDate);
    var p := KeyIssues("progress", progress);
    ReportsAppend(t + d + due + p, u, k);
    ReportsAppend(t + d + due, p, k);
    ReportsAppend(t + d, due, k);
    ReportsAppend(t, d, k);
    assert t != [] ==> t[0] in t;
    assert d != [] ==> d[0] in d;
    assert due != [] ==> due[0] in due;
    assert p != [] ==> p[0] in p;
  }

  /** Update reports one detail, the first in this order: the listed keys in
      schema order, then the first unknown key of the body, then an empty
      body's custom message. */
  lemma UpdateReportsFirstFailure(body: Body, parseDate: string -> Option<int>)
    ensures var r := ValidateTaskUpdate(body, parseDate);
      KeyFails(body, false, "title", parseDate) ==>
        r == Some(Response(400, Failure(Describe(Detail("title", CheckString(Get(body, "title"), TitleRule(false), NoEmail).value)))))
    ensures var r := ValidateTaskUpdate(body, parseDate);
      !KeyFails(body, false, "title", parseDate) && KeyFails(body, false, "description", parseDate) ==>
        r == Some(Response(400, Failure(Describe(Detail("description",
               CheckString(Get(body, "description"), DescriptionRule(false), NoEmail).value)))))
    ensures var r := ValidateTaskUpdate(body, parseDate);
      !KeyFails(body, false, "title", parseDate) && !KeyFails(body, false, "description", parseDate) &&
      KeyFails(body, false, "dueDate", parseDate) ==>
        r == Some(Response(400, Failure(Describe(Detail("dueDate", NotDate)))))
    ensures var r := ValidateTaskUpdate(body, parseDate);
      !KeyFails(body, false, "title", parseDate) && !KeyFails(body, false, "description", parseDate) &&
      !KeyFails(body, false, "dueDate", parseDate) && KeyFails(body, false, "progress", parseDate) ==>
        r == Some(Response(400, Failure(Describe(Detail("progress", NotOneOf(ProgressNames))))))
    ensures var r := ValidateTaskUpdate(body, parseDate);
      !KeyFails(body, false, "title", parseDate) && !KeyFails(body, false, "description", parseDate) &&
      !KeyFails(body, false, "dueDate", parseDate) && !KeyFails(body, false, "progress", parseDate) &&
      !OnlyTaskKeys(body) ==>
        exists k :: FirstUnknown(body, TaskKeys, k) && r == Some(Response(400, Failure(Describe(Detail(k, NotAllowed)))))
    ensures body == [] ==> ValidateTaskUpdate(body, parseDate) == Some(Response(400, Failure(AtLeastOneFieldMessage)))
  {
    ListedIssues(body, false, parseDate);
    UpdateDetailInOrder(body, parseDate);
    if !OnlyTaskKeys(body) {
      UnknownKeysStartWithFirst(body, TaskKeys);
    }
  }

  /** The detail the update schema reports, case by case. */
  lemma UpdateDetailInOrder(body: Body, parseDate: string -> Option<int>)
    ensures var ti := CheckString(Get(body, "title"), TitleRule(false), NoEmail);
      var di := CheckString(Get(body, "description"), DescriptionRule(false), NoEmail);
      var dd := CheckDate(Get(body, "dueDate"), parseDate);
      var pi := CheckOneOf(Get(body, "progress"), ProgressNames, false);
      UpdateDetail(body, parseDate) ==
        if ti.Some? then Some(Detail("title", ti.value))
        else if di.Some? then Some(Detail("description", di.value))
        else if dd.Some? then Some(Detail("dueDate", dd.value))
        else if pi.Some? then Some(Detail("progress", pi.value))
        else if !OnlyTaskKeys(body) then Some(Detail(UnknownKeys(body, TaskKeys)[0], NotAllowed))
        else if body == [] then Some(Detail("value", TooFewKeys(1)))
        else None
  {
    var u := UnknownDetails(body, TaskKeys);
    if !OnlyTaskKeys(body) {
      var k :| HasKey(body, k) && k !in TaskKeys;
      assert Detail(k, NotAllowed) in u;
    }
    if body == [] {
      EmptyUpdateRejected(body, parseDate);
    }
  }

  /** An empty update body gets the schema's custom message. */
  lemma EmptyUpdateRejected(body: Body, parseDate: string -> Option<int>)
    requires body == []
    ensures ValidateTaskUpdate(body, parseDate) == Some(Response(400, Failure(AtLeastOneFieldMessage)))
  {
    assert forall k :: !HasKey(body, k);
    assert UnknownKeys(body, TaskKeys) == [];
  }

  /** Neither schema lets a body name the owner or the creation time. */
  lemma OwnerFieldsRejected(body: Body, parseDate: string -> Option<int>)
    requires HasKey(body, "userId") || HasKey(body, "createdAt")
    ensures ValidateTaskCreation(body, parseDate).Some? && ValidateTaskCreation(body, parseDate).value.status == 400
    ensures ValidateTaskUpdate(body, parseDate).Some? && ValidateTaskUpdate(body, parseDate).value.status == 400
  {
    OwnerKeysUnlisted();
    assert !OnlyTaskKeys(body);
    CreationAcceptsExactly(body, parseDate);
    UpdateAcceptsExactly(body, parseDate);
  }

  /** A body the update schema accepts names neither the owner nor the
      creation time. */
  lemma AcceptedUpdateNamesNoOwner(body: Body, parseDate: string -> Option<int>)
    requires ValidateTaskUpdate(body, parseDate).None?
    ensures !HasKey(body, "userId") && !HasKey(body, "createdAt")
  {
    UpdateAcceptsExactly(body, parseDate);
    OwnerKeysUnlisted();
  }

  lemma OwnerKeysUnlisted()
    ensures "userId" !in TaskKeys && "createdAt" !in TaskKeys
  {
  }

  /** Each update field is optional but otherwise checked exactly as on
      creation: a present value yields the same issue under both schemas. */
  lemma UpdateFieldsCheckedAsCreation(v: Value, parseDate: string -> Option<int>)
    ensures CheckString(Some(v), TitleRule(false), NoEmail) == CheckString(Some(v), TitleRule(true), NoEmail)
    ensures CheckString(Some(v), DescriptionRule(false), NoEmail) == CheckString(Some(v), DescriptionRule(true), NoEmail)
    ensures CheckString(None, TitleRule(false), NoEmail).None? && CheckString(None, TitleRule(true), NoEmail) == Some(Required)
  {
  }

  /** `null` and '' are admitted as due dates by both schemas. */
  lemma NullAndEmptyDueDateAdmitted(parseDate: string -> Option<int>)
    ensures CheckDate(Some(Null), parseDate).None? && CheckDate(Some(Str("")), parseDate).None?
    ensures ValidateTaskUpdate([("dueDate", Null)], parseDate).None?
    ensures ValidateTaskUpdate([("dueDate", Str(""))], parseDate).None?
  {
    LoneDueDateAccepted(Null, parseDate);
    LoneDueDateAccepted(Str(""), parseDate);
  }

  lemma LoneDueDateAccepted(v: Value, parseDate: string -> Option<int>)
    requires v == Null || v == Str("")
    ensures ValidateTaskUpdate([("dueDate", v)], parseDate).None?
  {
    var b := [("dueDate", v)];
    assert Get(b, "dueDate") == Some(v);
    assert forall k :: HasKey(b, k) ==> k == "dueDate";
    assert !HasKey(b, "title") && !HasKey(b, "description") && !HasKey(b, "progress");
    UpdateAcceptsExactly(b, parseDate);
  }

  /** `"title" is not allowed to be empty`. */
  const EmptyTitleMessage: string := "\"" + "title" + "\"" + " is not allowed to be empty"
  const ProgressList: string := "not-started, in-progress, completed"
  /** `"progress" must be one of [not-started, in-progress, completed]`. */
  const BadProgressMessage: string := "\"" + "progress" + "\"" + " must be one of [" + ProgressList + "]"

  lemma EmptyTitleDescribed()
    ensures Describe(Detail("title", Empty)) == EmptyTitleMessage
  {
  }

  lemma ProgressListRendered()
    ensures Join(ProgressNames, ", ") == ProgressList
  {
    var tail := ["in-progress", "completed"];
    assert ProgressNames[1..] == tail;
    assert tail[1..] == ["completed"];
    assert Join(tail, ", ") == "in-progress" + ", " + "completed";
  }

  /** The `any.only` message for a bad progress value lists the three names. */
  lemma BadProgressDescribed()
    ensures Describe(Detail("progress", NotOneOf(ProgressNames))) == BadProgressMessage
  {
    NotOneOfDescribed("progress", ProgressNames);
    ProgressListRendered();
  }

  lemma NotOneOfDescribed(key: string, vs: seq<string>)
    ensures Describe(Detail(key, NotOneOf(vs))) == "\"" + key + "\"" + " must be one of [" + Join(vs, ", ") + "]"
  {
  }

  lemma CreationExampleDetails(body: Body, parseDate: string -> Option<int>)
    requires body == [("title", Str("")), ("description", Str("d")), ("progress", Str("done"))]
    ensures CreationDetails(body, parseDate) == [Detail("title", Empty), Detail("progress", NotOneOf(ProgressNames))]
  {
    assert body[0].0 == "title" && body[1].0 == "description" && body[2].0 == "progress";
    assert !HasKey(body, "dueDate");
    var t := KeyDetails("title", CheckString(Get(body, "title"), TitleRule(true), NoEmail));
    var d := KeyDetails("description", CheckString(Get(body, "description"), DescriptionRule(true), NoEmail));
    var due := KeyDetails("dueDate", CheckDate(Get(body, "dueDate"), parseDate));
    assert "done" !in ProgressNames;
    var p := KeyIssues("progress", CheckOneOfAll(Get(body, "progress"), ProgressNames, false));
    assert t == [Detail("title", Empty)];
    assert d == [] && due == [];
    assert p == [Detail("progress", NotOneOf(ProgressNames))];
    assert forall k :: HasKey(body, k) ==> k in TaskKeys;
    assert UnknownDetails(body, TaskKeys) == [];
    assert CreationDetails(body, parseDate) == t + d + due + p + [];
  }

  /** Creation reports every failing key, in schema order, joined by ', '. */
  lemma TwoDetailsReported(body: Body, parseDate: string -> Option<int>)
    requires CreationDetails(body, parseDate) == [Detail("title", Empty), Detail("progress", NotOneOf(ProgressNames))]
    ensures ValidateTaskCreation(body, parseDate) == Some(Response(400, Failure(EmptyTitleMessage + ", " + BadProgressMessage)))
  {
    var ms := Messages(CreationDetails(body, parseDate), Describe);
    EmptyTitleDescribed();
    BadProgressDescribed();
    assert ms == [EmptyTitleMessage, BadProgressMessage];
    JoinTwo(EmptyTitleMessage, BadProgressMessage, ", ");
  }

  /** A body with an empty title and an unknown progress gets both messages. */
  lemma CreationReportsAll(body: Body, parseDate: string -> Option<int>)
    requires body == [("title", Str("")), ("description", Str("d")), ("progress", Str("done"))]
    ensures ValidateTaskCreation(body, parseDate) == Some(Response(400, Failure(EmptyTitleMessage + ", " + BadProgressMessage)))
  {
    CreationExampleDetails(body, parseDate);
    TwoDetailsReported(body, parseDate);
  }

  /** `"progress" must be a string` and `"progress" is not allowed to be empty`. */
  const NotStringProgressMessage: string := "\"" + "progress" + "\"" + " must be a string"
  const EmptyProgressMessage: string := "\"" + "progress" + "\"" + " is not allowed to be empty"

  /** When progress is the only key that fails creation and its value is
      not a non-empty string, the 400 carries two messages: `any.only`,
      then the base type's. */
  lemma BadProgressTypeReported(body: Body, parseDate: string -> Option<int>)
    requires HasKey(body, "title") && HasKey(body, "description") && OnlyTaskKeys(body)
    requires !KeyFails(body, true, "title", parseDate) && !KeyFails(body, true, "description", parseDate)
    requires !KeyFails(body, true, "dueDate", parseDate) && HasKey(body, "progress")
    requires var p := Get(body, "progress").value; p.Str? ==> p.s == ""
    ensures var second := if Get(body, "progress").value.Str? then EmptyProgressMessage else NotStringProgressMessage;
      ValidateTaskCreation(body, parseDate) == Some(Response(400, Failure(BadProgressMessage + ", " + second)))
  {
    var second := if Get(body, "progress").value.Str? then Empty else NotString;
    BadProgressTypeDetails(body, parseDate);
    ProgressTypeMessages(body, parseDate, second);
  }

  /** The two messages of a progress that is not a non-empty string. */
  lemma ProgressTypeMessages(body: Body, parseDate: string -> Option<int>, second: Issue)
    requires second == Empty || second == NotString
    requires CreationDetails(body, parseDate) == [Detail("progress", NotOneOf(ProgressNames)), Detail("progress", second)]
    ensures var m2 := if second == Empty then EmptyProgressMessage else NotStringProgressMessage;
      ValidateTaskCreation(body, parseDate) == Some(Response(400, Failure(BadProgressMessage + ", " + m2)))
  {
    var m2 := if second == Empty then EmptyProgressMessage else NotStringProgressMessage;
    assert Describe(Detail("progress", second)) == m2;
    BadProgressDescribed();
    var ms := Messages(CreationDetails(body, parseDate), Describe);
    assert ms == [BadProgressMessage, m2];
    JoinTwo(BadProgressMessage, m2, ", ");
  }

  lemma BadProgressTypeDetails(body: Body, parseDate: string -> Option<int>)
    requires HasKey(body, "title") && HasKey(body, "description") && OnlyTaskKeys(body)
    requires !KeyFails(body, true, "title", parseDate) && !KeyFails(body, true, "description", parseDate)
    requires !KeyFails(body, true, "dueDate", parseDate) && HasKey(body, "progress")
    requires var p := Get(body, "progress").value; p.Str? ==> p.s == ""
    ensures var second := if Get(body, "progress").value.Str? then Empty else NotString;
      CreationDetails(body, parseDate) == [Detail("progress", NotOneOf(ProgressNames)), Detail("progress", second)]
  {
    var v := Get(body, "progress").value;
    var second := if v.Str? then Empty else NotString;
    ListedIssues(body, true, parseDate);
    assert "" !in ProgressNames;
    var pi := CheckOneOfAll(Get(body, "progress"), ProgressNames, false);
    assert pi == [NotOneOf(ProgressNames), second];
    assert UnknownDetails(body, TaskKeys) == [];
    assert CreationDetails(body, parseDate) == KeyIssues("progress", pi) + [];
  }

  /** A number as progress gets `any.only` and `string.base`. */
  lemma NumericProgressReported(body: Body, parseDate: string -> Option<int>)
    requires body == [("title", Str("t")), ("description", Str("d")), ("progress", Num(5))]
    ensures ValidateTaskCreation(body, parseDate) ==
      Some(Response(400, Failure(BadProgressMessage + ", " + NotStringProgressMessage)))
  {
    assert body[0].0 == "title" && body[1].0 == "description" && body[2].0 == "progress";
    assert Get(body, "title") == Some(Str("t")) && Get(body, "description") == Some(Str("d"));
    assert Get(body, "progress") == Some(Num(5)) && !HasKey(body, "dueDate");
    assert forall k :: HasKey(body, k) ==> k in TaskKeys;
    Utf16LengthOfBmp("t");
    Utf16LengthOfBmp("d");
    BadProgressTypeReported(body, parseDate);
  }

  /** An empty progress gets `any.only` and `string.empty`. */
  lemma EmptyProgressReported(body: Body, parseDate: string -> Option<int>)
    requires body == [("title", Str("t")), ("description", Str("d")), ("progress", Str(""))]
    ensures ValidateTaskCreation(body, parseDate) ==
      Some(Response(400, Failure(BadProgressMessage + ", " + EmptyProgressMessage)))
  {
    assert body[0].0 == "title" && body[1].0 == "description" && body[2].0 == "progress";
    assert Get(body, "title") == Some(Str("t")) && Get(body, "description") == Some(Str("d"));
    assert Get(body, "progress") == Some(Str("")) && !HasKey(body, "dueDate");
    assert forall k :: HasKey(body, k) ==> k in TaskKeys;
    Utf16LengthOfBmp("t");
    Utf16LengthOfBmp("d");
    BadProgressTypeReported(body, parseDate);
  }

  /** Update reports only the first failing key. */
  lemma UpdateReportsFirst(body: Body, parseDate: string -> Option<int>)
    requires body == [("title", Str("")), ("progress", Str("done"))]
    ensures ValidateTaskUpdate(body, parseDate) == Some(Response(400, Failure(EmptyTitleMessage)))
  {
    assert Get(body, "title") == Some(Str(""));
    var first := KeyDetails("title", CheckString(Get(body, "title"), TitleRule(false), NoEmail));
    assert first == [Detail("title", Empty)];
    assert TaskDetails(body, false, parseDate)[0] == Detail("title", Empty);
    EmptyTitleDescribed();
  }
}
