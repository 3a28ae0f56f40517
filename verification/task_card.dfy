/** client/src/components/TaskCard.js: who may change a task from its card,
    the guards of the progress, delete and save handlers, the "changed
    fields only" edit payload, and the `isEditing`/`isDeleting` flags. The
    outcome of each network call and the answer to the confirmation dialog
    are parameters; alerts are not modelled. */
module TaskCard {
  import opened Common
  import opened Dashboard
  import opened AuthContext
  import opened TaskModel
  import opened TaskValidation

  /** The request a handler makes, if any. */
  datatype ApiCall =
    | NoCall
    | UpdateCall(taskId: string, updates: seq<(string, string)>)
    | DeleteCall(taskId: string)

  /** `isOwner`/`canModify`: a user is logged in and owns the task. */
  predicate CanModify(user: Option<SessionUser>, task: TaskItem)
  {
    user.Some? && task.userId == user.value.userId
  }

  /** `handleProgressChange`: only the owner's change reaches the server,
      as a patch of the progress alone. */
  function ProgressChange(user: Option<SessionUser>, task: TaskItem, newProgress: string): (call: ApiCall)
    ensures call != NoCall <==> CanModify(user, task)
    ensures call != NoCall ==> call == UpdateCall(task.id, [("progress", newProgress)])
  {
    if !CanModify(user, task) then NoCall else UpdateCall(task.id, [("progress", newProgress)])
  }

  /** `updates` in `handleSaveEdit`: the title when it changed, then the
      description when it changed. */
  function EditDiff(task: TaskItem, editedTitle: string, editedDescription: string): seq<(string, string)>
  {
    (if editedTitle != task.title then [("title", editedTitle)] else []) +
    (if editedDescription != task.description then [("description", editedDescription)] else [])
  }

  /** The diff names a field exactly when it changed, with its new value,
      and names nothing else; it is empty exactly when nothing changed. */
  lemma EditDiffExact(task: TaskItem, editedTitle: string, editedDescription: string)
    ensures var d := EditDiff(task, editedTitle, editedDescription);
      (forall e :: e in d ==> e.0 in {"title", "description"}) &&
      (("title", editedTitle) in d <==> editedTitle != task.title) &&
      (("description", editedDescription) in d <==> editedDescription != task.description) &&
      (forall v :: ("title", v) in d ==> v == editedTitle) &&
      (forall v :: ("description", v) in d ==> v == editedDescription) &&
      (d == [] <==> editedTitle == task.title && editedDescription == task.description)
  {
  }

  /** The JSON body of an edit's diff, as the server parses it. */
  function EditBody(task: TaskItem, editedTitle: string, editedDescription: string): (r: Body)
    ensures |r| == |EditDiff(task, editedTitle, editedDescription)|
    ensures Get(r, "title") == (if editedTitle != task.title then Some(Str(editedTitle)) else None)
    ensures Get(r, "description") == (if editedDescription != task.description then Some(Str(editedDescription)) else None)
    ensures forall k :: HasKey(r, k) ==> k in {"title", "description"}
  {
    var t: seq<(string, Value)> := if editedTitle != task.title then [("title", Str(editedTitle))] else [];
    var d: seq<(string, Value)> := if editedDescription != task.description then [("description", Str(editedDescription))] else [];
    var fields := t + d;
    assert forall i :: 0 <= i < |t| ==> fields[i] == t[i];
    assert forall i :: 0 <= i < |d| ==> fields[|t| + i] == d[i];
    fields
  }

  /** The server's update schema accepts a saved edit exactly when something
      changed, a changed title has 1 to 255 UTF-16 code units and a changed
      description is not empty: clearing a field on the card is refused. */
  lemma EditAcceptedExactly(task: TaskItem, editedTitle: string, editedDescription: string,
                            parseDate: string -> Option<int>)
    ensures ValidateTaskUpdate(EditBody(task, editedTitle, editedDescription), parseDate).None? <==>
      EditDiff(task, editedTitle, editedDescription) != [] &&
      (editedTitle != task.title ==> 1 <= Utf16Length(editedTitle) <= 255) &&
      (editedDescription != task.description ==> editedDescription != "")
  {
    var b := EditBody(task, editedTitle, editedDescription);
    EditBodyShape(task, editedTitle, editedDescription, parseDate);
    UpdateAcceptsExactly(b, parseDate);
  }

  /** An edit body names only title and description, and its fields pass
      the schema's rules exactly when a changed title has 1 to 255 code units
      and a changed description is not empty. */
  lemma EditBodyShape(task: TaskItem, editedTitle: string, editedDescription: string, parseDate: string -> Option<int>)
    ensures var b := EditBody(task, editedTitle, editedDescription);
      OnlyTaskKeys(b) && (|b| >= 1 <==> EditDiff(task, editedTitle, editedDescription) != []) &&
      (FieldsGood(b, parseDate) <==>
         (editedTitle != task.title ==> 1 <= Utf16Length(editedTitle) <= 255) &&
         (editedDescription != task.description ==> editedDescription != ""))
  {
    var b := EditBody(task, editedTitle, editedDescription);
    EditBodyKeys(b);
    assert FieldsGood(b, parseDate) <==>
      (Get(b, "title").Some? ==> GoodTitle(Get(b, "title").value)) &&
      (Get(b, "description").Some? ==> GoodDescription(Get(b, "description").value));
  }

  lemma EditBodyKeys(b: Body)
    requires forall k :: HasKey(b, k) ==> k in {"title", "description"}
    ensures OnlyTaskKeys(b) && !HasKey(b, "dueDate") && !HasKey(b, "progress")
  {
    assert "dueDate" !in {"title", "description"} && "progress" !in {"title", "description"};
    assert forall k :: k in {"title", "description"} ==> k in TaskKeys;
  }

  /** A progress picked from the card's menu passes the update schema. */
  lemma ProgressChangeAccepted(newProgress: string, parseDate: string -> Option<int>)
    requires newProgress in ProgressNames
    ensures ValidateTaskUpdate([("progress", Str(newProgress))], parseDate).None?
  {
    var b: Body := [("progress", Str(newProgress))];
    UpdateAcceptsExactly(b, parseDate);
    assert b[0].0 == "progress";
  }

  /** The card's own state. */
  class CardState {
    var isEditing: bool
    var isDeleting: bool
    var editedTitle: string
    var editedDescription: string

    /** The card as first rendered: not editing, not deleting, the edit
        fields holding the task's own text. */
    constructor(task: TaskItem)
      ensures !isEditing && !isDeleting
      ensures editedTitle == task.title && editedDescription == task.description
    {
      isEditing := false;
      isDeleting := false;
      editedTitle := task.title;
      editedDescription := task.description;
    }

    /** `handleDelete`: a non-owner makes no call; an owner who confirms
        makes the call, is told `removed` when it succeeded, and the
        `isDeleting` flag is down again afterwards. */
    method HandleDelete(user: Option<SessionUser>, task: TaskItem, confirmed: bool, succeeded: bool)
      returns (call: ApiCall, removed: bool)
      modifies this
      ensures !CanModify(user, task) ==> call == NoCall && !removed && isDeleting == old(isDeleting)
      ensures CanModify(user, task) && !confirmed ==> call == NoCall && !removed && isDeleting == old(isDeleting)
      ensures CanModify(user, task) && confirmed ==> call == DeleteCall(task.id) && removed == succeeded && !isDeleting
      ensures isEditing == old(isEditing) && editedTitle == old(editedTitle) && editedDescription == old(editedDescription)
    {
      call, removed := NoCall, false;
      if !CanModify(user, task) {
        return;
      }
      if confirmed {
        isDeleting := true;
        call := DeleteCall(task.id);
        if succeeded {
          removed := true;
        }
        isDeleting := false;
      }
    }

    /** `handleSaveEdit`: nothing for a non-owner; without changes no call and
        edit mode closes; otherwise the diff is sent and edit mode closes only
        if the save succeeded. */
    method HandleSaveEdit(user: Option<SessionUser>, task: TaskItem, succeeded: bool) returns (call: ApiCall)
      modifies this
      ensures !CanModify(user, task) ==> call == NoCall && isEditing == old(isEditing)
      ensures CanModify(user, task) && EditDiff(task, editedTitle, editedDescription) == [] ==>
        call == NoCall && !isEditing
      ensures CanModify(user, task) && EditDiff(task, editedTitle, editedDescription) != [] ==>
        call == UpdateCall(task.id, EditDiff(task, editedTitle, editedDescription)) &&
        isEditing == (old(isEditing) && !succeeded)
      ensures isDeleting == old(isDeleting) && editedTitle == old(editedTitle) && editedDescription == old(editedDescription)
    {
      call := NoCall;
      if !CanModify(user, task) {
        return;
      }
      var updates: seq<(string, string)> := [];
      if editedTitle != task.title {
        updates := updates + [("title", editedTitle)];
      }
      if editedDescription != task.description {
        updates := updates + [("description", editedDescription)];
      }
      if |updates| > 0 {
        call := UpdateCall(task.id, updates);
        if succeeded {
          isEditing := false;
        }
      } else {
        isEditing := false;
      }
    }
  }
}
