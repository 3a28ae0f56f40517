/** The Task document of server/models/Task.js: its fields, the progress
    enumeration, the defaults applied by `new Task({...})`, the `required`
    validators run on save, and how mongoose casts a JSON value to a String
    path and to a Date path. */
module TaskModel {
  import opened Common
  import opened JsText

  datatype Progress = NotStarted | InProgress | Completed

  /** The enumeration's spellings, in the schema's order. */
  const ProgressNames: seq<string> := ["not-started", "in-progress", "completed"]

  const DefaultProgress: Progress := NotStarted

  function ProgressName(p: Progress): (r: string)
    ensures r in ProgressNames
    ensures ParseProgress(r) == Some(p)
  {
    match p
    case NotStarted => "not-started"
    case InProgress => "in-progress"
    case Completed => "completed"
  }

  /** The enum validator: only the three spellings name a progress value. */
  function ParseProgress(s: string): (r: Option<Progress>)
    ensures r.Some? <==> s in ProgressNames
  {
    if s == "not-started" then Some(NotStarted)
    else if s == "in-progress" then Some(InProgress)
    else if s == "completed" then Some(Completed)
    else None
  }

  /** A stored task. `dueDate` and `createdAt` are milliseconds since the epoch;
      a task without a due date has `dueDate == None`. `createdAt` and
      `progress` are set on creation, but an update may set either to `null`
      (neither path is `required`, and the enum validator passes `null`), so
      they are optional too. The task's id is its key in the store. */
  datatype Task = Task(
    userId: Id,
    title: string,
    description: string,
    dueDate: Option<int>,
    progress: Option<Progress>,
    createdAt: Option<int>)

  /** The object handed to `new Task({...})`: a field left out is `None`. */
  datatype TaskDraft = TaskDraft(
    userId: Option<Id>,
    title: Option<string>,
    description: Option<string>,
    dueDate: Option<int>,
    progress: Option<string>,
    createdAt: Option<int>)

  /** Mongoose's `required` validator on a String path rejects a missing value
      and the empty string. */
  predicate RequiredText(s: Option<string>)
  {
    s.Some? && s.value != ""
  }

  /** What every stored task satisfies, because saving enforces it. */
  predicate Saveable(t: Task)
  {
    t.title != "" && t.description != ""
  }

  /** `new Task(draft)` followed by validation on `save()`: `None` when a
      validator fails, otherwise the document with the schema defaults filled in
      (`progress` 'not-started', `createdAt` the current time `now`). */
  function Instantiate(d: TaskDraft, now: int): (r: Option<Task>)
    ensures r.Some? <==>
      d.userId.Some? && RequiredText(d.title) && RequiredText(d.description) &&
      (d.progress.Some? ==> d.progress.value in ProgressNames)
    ensures r.Some? ==> Saveable(r.value)
    ensures r.Some? ==>
      r.value.userId == d.userId.value && r.value.title == d.title.value &&
      r.value.description == d.description.value && r.value.dueDate == d.dueDate
    ensures r.Some? && d.progress.None? ==> r.value.progress == Some(DefaultProgress)
    ensures r.Some? && d.progress.Some? ==>
      r.value.progress.Some? && ProgressName(r.value.progress.value) == d.progress.value
    ensures r.Some? && d.createdAt.None? ==> r.value.createdAt == Some(now)
    ensures r.Some? && d.createdAt.Some? ==> r.value.createdAt == d.createdAt
  {
    var progress := if d.progress.None? then Some(DefaultProgress) else ParseProgress(d.progress.value);
    if d.userId.None? || !RequiredText(d.title) || !RequiredText(d.description) || progress.None? then None
    else
      var created := if d.createdAt.Some? then d.createdAt else Some(now);
      Some(Task(d.userId.value, d.title.value, d.description.value, d.dueDate, progress, created))
  }

  /** The outcome of casting a JSON value to a String path. */
  datatype TextCast = NullText | Text(s: string) | BadText

  /** Casting to a String path: `null` stays `null`; an object whose `_id`
      is a non-empty string is that string (the id of a document passed in
      its place); a string, a number or a boolean is what its `toString()`
      gives; an array or any other object fails. */
  function CastString(v: Value): (r: TextCast)
    ensures r == NullText <==> v.Null?
    ensures v.Str? ==> r == Text(v.s)
    ensures v.Num? || v.Bool? ==> r == Text(ToJsString(v).value)
    ensures v.Arr? ==> r == BadText
    ensures v.Obj? ==> (r.Text? <==> exists id :: id != "" && Get(v.fields, "_id") == Some(Str(id)))
    ensures v.Obj? && r.Text? ==> Get(v.fields, "_id") == Some(Str(r.s))
  {
    match v
    case Null => NullText
    case Str(s) => Text(s)
    case Num(n) => Text(IntToString(n))
    case Bool(b) => Text(if b then "true" else "false")
    case Arr(_) => BadText
    case Obj(fields) =>
      match Get(fields, "_id")
      case Some(Str(id)) => if id != "" then Text(id) else BadText
      case _ => BadText
  }

  /** The outcome of casting a JSON value to a Date path. */
  datatype DateCast = NoDate | Date(ms: int) | BadDate

  /** The largest distance from the epoch, in milliseconds, a JavaScript
      `Date` can hold (100,000,000 days); a number further out is an invalid
      date. */
  const MaxTimeMs: int := 8_640_000_000_000_000

  predicate InTimeRange(ms: int)
  {
    -MaxTimeMs <= ms <= MaxTimeMs
  }

  predicate ValidTime(x: real)
  {
    -(MaxTimeMs as real) <= x <= MaxTimeMs as real
  }

  /** Rounding toward zero. */
  function Truncate(x: real): int
  {
    if x >= 0.0 then x.Floor else -((-x).Floor)
  }

  /** `new Date(x)` of a number: the fraction is dropped, and a value outside
      the range of `Date`, or not finite, is an invalid date. */
  function NumberDate(n: JsNumber): (r: DateCast)
    ensures r.Date? <==> n.Finite? && ValidTime(n.x)
    ensures r.Date? ==> r.ms == Truncate(n.x) && InTimeRange(r.ms)
    ensures r != NoDate
  {
    match n
    case Finite(x) => if ValidTime(x) then Date(Truncate(x)) else BadDate
    case _ => BadDate
  }

  /** `new Date(text)`: the date parser `parseDate`, which is not modelled. */
  function TextDate(t: string, parseDate: string -> Option<int>): (r: DateCast)
    ensures r.Date? <==> parseDate(t).Some?
    ensures r.Date? ==> r.ms == parseDate(t).value
    ensures r != NoDate
  {
    match parseDate(t)
    case Some(ms) => Date(ms)
    case None => BadDate
  }

  /** The strings the Date cast reads as a count of milliseconds rather than
      as date text: those `Number(s)` turns into a number of at least 275761
      or below -271820, infinities included. */
  predicate NumericDateText(s: string)
  {
    match StringToNumber(s)
    case Finite(x) => x >= 275761.0 || x < -271820.0
    case Infinite(_) => true
    case NaN => false
  }

  /** Casting to a Date path: `null` and '' become no date; a number within
      the range of `Date` is that timestamp; a boolean fails; a string is
      read as a number of milliseconds when it is numeric text far enough
      from the epoch, and otherwise as date text; an array or an object is
      read as the date text of its string form (failing when that throws). */
  function CastDate(v: Value, parseDate: string -> Option<int>): (r: DateCast)
    ensures r == NoDate <==> v.Null? || v == Str("")
    ensures v.Num? ==> (if InTimeRange(v.n) then r == Date(v.n) else r == BadDate)
    ensures v.Bool? ==> r == BadDate
    ensures v.Str? && v.s != "" && NumericDateText(v.s) ==> r == NumberDate(StringToNumber(v.s))
    ensures v.Str? && v.s != "" && !NumericDateText(v.s) ==> r == TextDate(v.s, parseDate)
    ensures v.Arr? || v.Obj? ==>
      r == (match ToJsString(v) case Some(t) => TextDate(t, parseDate) case None => BadDate)
  {
    match v
    case Null => NoDate
    case Str(s) =>
      if s == "" then NoDate
      else if NumericDateText(s) then NumberDate(StringToNumber(s))
      else TextDate(s, parseDate)
    case Num(n) => if InTimeRange(n) then Date(n) else BadDate
    case Bool(_) => BadDate
    case _ =>
      match ToJsString(v)
      case Some(t) => TextDate(t, parseDate)
      case None => BadDate
  }

  /** The order `sort({createdAt: ...})` uses on the path: a task whose
      `createdAt` is `null` sorts below every dated one. */
  predicate NotNewer(a: Option<int>, b: Option<int>)
  {
    a.None? || (b.Some? && a.value <= b.value)
  }
}
