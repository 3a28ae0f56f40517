/** client/src/pages/Dashboard.js: the task list held by the page, the
    client-side progress filter, removal of a deleted task, the date filter
    sent to the server, and the rule that an error mentioning 'token' logs
    the user out. Rendering and navigation are not modelled; the result of
    the network call is a parameter. */
module Dashboard {
  import opened Common
  import opened Http
  import opened UserModel
  import opened AuthMiddleware
  import opened TaskController

  /** A task of the list as the page reads it from the JSON response (ids
      are strings there). */
  datatype TaskItem = TaskItem(id: string, userId: string, title: string, description: string, progress: string)

  const AllProgress: string := "all"
  const NoDateFilter: string := "none"
  const LoadFailedText: string := "Failed to load tasks."

  /** `filteredTasks`: 'all' keeps every task, any other value the tasks with
      exactly that progress. */
  function FilterByProgress(tasks: seq<TaskItem>, progressFilter: string): seq<TaskItem>
  {
    Filter(tasks, (t: TaskItem) => progressFilter == AllProgress || t.progress == progressFilter)
  }

  /** `handleTaskDelete`: drop the tasks carrying the deleted id. */
  function RemoveById(tasks: seq<TaskItem>, id: string): seq<TaskItem>
  {
    Filter(tasks, (t: TaskItem) => t.id != id)
  }

  /** The argument `fetchTasks` hands to `getTasks`. */
  function DateFilterQuery(dateFilter: string): (q: string)
    ensures dateFilter == NoDateFilter ==> q == ""
    ensures dateFilter != NoDateFilter ==> q == dateFilter
  {
    if dateFilter == NoDateFilter then "" else dateFilter
  }

  /** What the server's `req.query.dateFilter` becomes: `getTasks` adds the
      query string only for a non-empty value. */
  function SentDateFilter(dateFilter: string): (r: Option<string>)
    ensures r.None? <==> dateFilter == NoDateFilter || dateFilter == ""
    ensures r.Some? ==> r.value == dateFilter
  {
    var q := DateFilterQuery(dateFilter);
    if q == "" then None else Some(q)
  }

  /** `err.message || 'Failed to load tasks.'`. */
  function FetchErrorText(message: string): (r: string)
    ensures message != "" ==> r == message
    ensures message == "" ==> r == LoadFailedText
  {
    if message != "" then message else LoadFailedText
  }

  /** The progress filter keeps exactly the tasks it names, in their order;
      'all' keeps the list as it is. */
  lemma FilterByProgressExact(tasks: seq<TaskItem>, progressFilter: string)
    ensures forall t :: t in FilterByProgress(tasks, progressFilter) <==>
      t in tasks && (progressFilter == AllProgress || t.progress == progressFilter)
    ensures IsSubsequence(FilterByProgress(tasks, progressFilter), tasks)
    ensures progressFilter == AllProgress ==> FilterByProgress(tasks, progressFilter) == tasks
  {
    var keep := (t: TaskItem) => progressFilter == AllProgress || t.progress == progressFilter;
    FilterKeepsOrder(tasks, keep);
    if progressFilter == AllProgress {
      FilterKeepAll(tasks, keep);
    }
  }

  /** Removal drops every task with that id, keeps every other one, and keeps
      their order. */
  lemma RemoveByIdExact(tasks: seq<TaskItem>, id: string)
    ensures forall t :: t in RemoveById(tasks, id) <==> t in tasks && t.id != id
    ensures IsSubsequence(RemoveById(tasks, id), tasks)
    ensures forall t :: multiset(RemoveById(tasks, id))[t] == if t.id != id then multiset(tasks)[t] else 0
  {
    FilterKeepsOrder(tasks, (t: TaskItem) => t.id != id);
  }

  /** The three options of the date menu reach the server as no filter, and
      as the two names the controller knows. */
  lemma DateOptionsReachServer(who: Identity, users: seq<User>, today: int)
    ensures SentDateFilter(NoDateFilter).None?
    ensures BuildTaskQuery(who, users, SentDateFilter(NoDateFilter), today).date == NoDateClause
    ensures SentDateFilter("this-week") == Some("this-week")
    ensures SentDateFilter("overdue") == Some("overdue")
  {
  }

  /** Both 401 messages of the auth middleware mention 'token', so a
      rejected token always logs the user out. */
  lemma AuthFailuresMentionToken(header: Option<string>, verify: string -> Option<Decoded>)
    requires Authenticate(header, verify).Err?
    ensures Authenticate(header, verify).error.body.Failure?
    ensures Contains(Authenticate(header, verify).error.body.message, "token")
  {
    var m1 := NoTokenMessage;
    var m2 := InvalidTokenMessage;
    assert m1[18..23] == "token";
    ContainsWitness(m1, "token", 18);
    assert m2[8..13] == "token";
    ContainsWitness(m2, "token", 8);
  }

  /** The outcome of the `getTasks` call. */
  datatype FetchOutcome = Fetched(tasks: seq<TaskItem>) | FetchFailed(message: string)

  /** The page's state. */
  class DashboardPage {
    var tasks: seq<TaskItem>
    var loading: bool
    var error: Option<string>
    var progressFilter: string
    var dateFilter: string

    /** The initial state: no tasks yet, loading, both filters off. */
    constructor()
      ensures tasks == [] && loading && error.None?
      ensures progressFilter == AllProgress && dateFilter == NoDateFilter
    {
      tasks := [];
      loading := true;
      error := None;
      progressFilter := AllProgress;
      dateFilter := NoDateFilter;
    }

    /** `fetchTasks`: the query it sends, then the state after `outcome`
        arrives; `logout` tells whether it called `logout()`. */
    method FetchTasks(outcome: FetchOutcome) returns (query: string, logout: bool)
      modifies this
      ensures query == DateFilterQuery(dateFilter)
      ensures !loading && progressFilter == old(progressFilter) && dateFilter == old(dateFilter)
      ensures outcome.Fetched? ==> tasks == outcome.tasks && error.None? && !logout
      ensures outcome.FetchFailed? ==>
        tasks == old(tasks) && error == Some(FetchErrorText(outcome.message)) &&
        logout == Contains(outcome.message, "token")
    {
      loading := true;
      error := None;
      query := DateFilterQuery(dateFilter);
      logout := false;
      match outcome {
        case Fetched(fetched) =>
          tasks := fetched;
        case FetchFailed(message) =>
          error := Some(FetchErrorText(message));
          if Contains(message, "token") {
            logout := true;
          }
      }
      loading := false;
    }

    /** `handleTaskDelete`. */
    method HandleTaskDelete(id: string)
      modifies this
      ensures tasks == RemoveById(old(tasks), id)
      ensures loading == old(loading) && error == old(error)
      ensures progressFilter == old(progressFilter) && dateFilter == old(dateFilter)
    {
      tasks := RemoveById(tasks, id);
    }
  }
}
