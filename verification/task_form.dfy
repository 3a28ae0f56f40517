/** client/src/components/TaskForm.js: the check, the payload and the reset
    of `handleSubmit`. Converting the picked date to ISO text
    (`new Date(dueDate).toISOString()`) is the parameter `toIso`; the
    outcome of the create call is a parameter. */
module TaskForm {
  import opened Common
  import opened TaskModel
  import opened JoiRules
  import opened JsText
  import opened TaskValidation

  const MissingFieldsText: string := "Title and Description are required."
  const CreateFailedText: string := "Failed to create task."

  /** `newTask`: title and description, and `dueDate` only when a date was
      picked. */
  function TaskPayload(title: string, description: string, dueDate: string, toIso: string -> string): (r: Body)
    ensures |r| == (if dueDate != "" then 3 else 2)
    ensures Get(r, "title") == Some(Str(title)) && Get(r, "description") == Some(Str(description))
    ensures Get(r, "dueDate") == (if dueDate != "" then Some(Str(toIso(dueDate))) else None)
    ensures forall k :: HasKey(r, k) ==> k in {"title", "description", "dueDate"}
  {
    if dueDate != "" then
      var fields := [("title", Str(title)), ("description", Str(description)), ("dueDate", Str(toIso(dueDate)))];
      assert fields[0].0 == "title" && fields[1].0 == "description" && fields[2].0 == "dueDate";
      fields
    else
      var fields := [("title", Str(title)), ("description", Str(description))];
      assert fields[0].0 == "title" && fields[1].0 == "description";
      fields
  }

  /** The text `toISOString` writes, `YYYY-MM-DDTHH:mm:ss.sssZ`, has a 'T'
      between the date and the time. */
  predicate IsoShaped(t: string)
  {
    exists i :: 0 <= i < |t| && t[i] == 'T'
  }

  /** ISO text is neither white space nor a digit string, so Joi hands it
      to the date parser. */
  lemma IsoTextIsDateText(t: string)
    requires IsoShaped(t)
    ensures !AllSpace(t) && DigitDateValue(t).None?
  {
    var i :| 0 <= i < |t| && t[i] == 'T';
    assert !IsJsSpace(t[i]);
    var u := Unsigned(t);
    if DigitText(u) {
      DigitTextShape(u);
    }
  }

  /** A payload the form sends passes the server's creation schema whenever
      the title fits in 255 UTF-16 code units and the ISO date parses: the form
      sends no key the schema does not list. */
  lemma PayloadAccepted(title: string, description: string, dueDate: string, toIso: string -> string,
                        parseDate: string -> Option<int>)
    requires title != "" && description != "" && Utf16Length(title) <= 255
    requires dueDate != "" ==> IsoShaped(toIso(dueDate)) && parseDate(toIso(dueDate)).Some?
    ensures ValidateTaskCreation(TaskPayload(title, description, dueDate, toIso), parseDate).None?
  {
    var p := TaskPayload(title, description, dueDate, toIso);
    if dueDate != "" {
      IsoTextIsDateText(toIso(dueDate));
    }
    assert !HasKey(p, "progress") by {
      assert "progress" !in {"title", "description", "dueDate"};
    }
    assert OnlyTaskKeys(p) by {
      assert forall k :: k in {"title", "description", "dueDate"} ==> k in TaskKeys;
    }
    assert FieldsGood(p, parseDate);
    CreationAcceptsExactly(p, parseDate);
  }

  /** The outcome of the create call. */
  datatype CreateOutcome = Created | CreateFailed(message: string)

  /** The form's state. */
  class FormState {
    var title: string
    var description: string
    var dueDate: string
    var error: Option<string>

    constructor()
      ensures title == "" && description == "" && dueDate == "" && error.None?
    {
      title, description, dueDate, error := "", "", "", None;
    }

    /** `handleSubmit`: the payload sent (`None` when the check stops it),
        whether `onTaskCreated` was called, and the new state. */
    method HandleSubmit(toIso: string -> string, outcome: CreateOutcome) returns (sent: Option<Body>, notified: bool)
      modifies this
      ensures (old(title) == "" || old(description) == "") ==>
        sent.None? && !notified && error == Some(MissingFieldsText) &&
        title == old(title) && description == old(description) && dueDate == old(dueDate)
      ensures old(title) != "" && old(description) != "" ==>
        sent == Some(TaskPayload(old(title), old(description), old(dueDate), toIso))
      ensures old(title) != "" && old(description) != "" && outcome.Created? ==>
        notified && error.None? && title == "" && description == "" && dueDate == ""
      ensures old(title) != "" && old(description) != "" && outcome.CreateFailed? ==>
        !notified && title == old(title) && description == old(description) && dueDate == old(dueDate) &&
        error == Some(if outcome.message != "" then outcome.message else CreateFailedText)
    {
      error := None;
      sent, notified := None, false;
      if title == "" || description == "" {
        error := Some(MissingFieldsText);
        return;
      }
      sent := Some(TaskPayload(title, description, dueDate, toIso));
      match outcome {
        case Created =>
          title := "";
          description := "";
          dueDate := "";
          notified := true;
        case CreateFailed(m) =>
          error := Some(if m != "" then m else CreateFailedText);
      }
    }
  }
}
