/** server/controllers/taskController.js: who may see which tasks (the query
    `buildTaskQuery` builds), the listing `getTasks` returns, and the three
    operations that change the task collection. The collection is a map from
    task id to task plus the id the next insertion receives; users are the
    table of `UserModel`. The rule the controller enforces is asymmetric: a
    teacher sees the tasks of the students who name them as teacher, but can
    change or delete only the tasks they own. */
module TaskController {
  import opened Common
  import opened TaskModel
  import opened UserModel
  import opened Http
  import opened AuthMiddleware

  const DayMs: int := 86400000
  /** `endOfWeek.setDate(today.getDate() + 7)`, taken as exactly seven days. */
  const WeekMs: int := 7 * DayMs

  const LoadFailedMessage: string := "Failed to load tasks."
  const CreatedMessage: string := "Task created successfully."
  const CreateFailedMessage: string := "Failed to create task."
  const NotFoundMessage: string := "Task not found."
  const UpdateForbiddenMessage: string := "Forbidden. You can only update tasks you own."
  const UpdatedMessage: string := "Task updated successfully."
  const UpdateFailedMessage: string := "Failed to update task."
  const DeleteForbiddenMessage: string := "Forbidden. You can only delete tasks you own."
  const DeleteFailedMessage: string := "Failed to delete task."

  // ------------------------------------------------------------ the query

  /** The role clause of `baseQuery`: nothing, `{userId}`, or
      `{$or: [{userId}, {userId: {$in: ids}}]}`. */
  datatype OwnerClause = AnyOwner | OwnerIs(id: Id) | OwnerIsOrIn(id: Id, ids: set<Id>)

  /** The date clause pushed onto `$and`, if any. */
  datatype DateClause =
    | NoDateClause
    /** `{dueDate: {$lt: before}, progress: {$ne: 'completed'}}` */
    | Overdue(before: int)
    /** `{dueDate: {$gte: from, $lte: until}}` */
    | DueBetween(from: int, until: int)

  datatype TaskQuery = TaskQuery(owner: OwnerClause, date: DateClause)

  /** `User.find({teacherId}).select('_id')`: every user naming `teacher` as
      teacher, whatever their role. */
  function StudentIds(users: seq<User>, teacher: Id): (r: set<Id>)
    ensures forall i: Id :: i in r <==> i < |users| && users[i].teacherId == Some(teacher)
  {
    set i | 0 <= i < |users| && users[i].teacherId == Some(teacher)
  }

  function BuildTaskQuery(who: Identity, users: seq<User>, dateFilter: Option<string>, today: int): TaskQuery
  {
    var owner :=
      if who.role == "student" then OwnerIs(who.userId)
      else if who.role == "teacher" then OwnerIsOrIn(who.userId, StudentIds(users, who.userId))
      else AnyOwner;
    var date :=
      if TruthyText(dateFilter) && dateFilter.value == "overdue" then Overdue(today)
      else if TruthyText(dateFilter) && dateFilter.value == "this-week" then DueBetween(today, today + WeekMs)
      else NoDateClause;
    TaskQuery(owner, date)
  }

  /** MongoDB's matching of a stored task against the query. A comparison
      on `dueDate` never matches a task whose due date is null, while
      `$ne: 'completed'` matches a null progress. */
  predicate Satisfies(q: TaskQuery, t: Task)
  {
    (match q.owner
     case AnyOwner => true
     case OwnerIs(id) => t.userId == id
     case OwnerIsOrIn(id, ids) => t.userId == id || t.userId in ids) &&
    (match q.date
     case NoDateClause => true
     case Overdue(before) => t.dueDate.Some? && t.dueDate.value < before && t.progress != Some(Completed)
     case DueBetween(from, until) => t.dueDate.Some? && from <= t.dueDate.value <= until)
  }

  // -------------------------------------------- reference visibility rules

  /** Who may see a task: a student their own; a teacher their own and those
      of every user whose `teacherId` is the teacher; any other role string
      is not restricted, since the query starts empty. */
  ghost predicate VisibleTo(who: Identity, users: seq<User>, t: Task)
  {
    (who.role == "student" ==> t.userId == who.userId) &&
    (who.role == "teacher" ==>
       t.userId == who.userId || (t.userId < |users| && users[t.userId].teacherId == Some(who.userId)))
  }

  /** The date window a filter selects: 'overdue' is due strictly before
      today's midnight and not completed; 'this-week' is due from today's
      midnight to seven days later, both ends included; anything else
      (absent, '', 'none', ...) selects every task. */
  ghost predicate InWindow(dateFilter: Option<string>, today: int, t: Task)
  {
    (dateFilter == Some("overdue") ==>
       t.dueDate.Some? && t.dueDate.value < today && t.progress != Some(Completed)) &&
    (dateFilter == Some("this-week") ==>
       t.dueDate.Some? && today <= t.dueDate.value && t.dueDate.value <= today + WeekMs)
  }

  /** The query selects exactly the visible tasks in the window: the date
      clause is AND-ed with the role clause. */
  lemma QuerySelectsExactly(who: Identity, users: seq<User>, dateFilter: Option<string>, today: int, t: Task)
    ensures Satisfies(BuildTaskQuery(who, users, dateFilter, today), t) <==>
      VisibleTo(who, users, t) && InWindow(dateFilter, today, t)
  {
  }

  /** For a student the role clause selects exactly their own tasks. */
  lemma StudentSeesOwnTasks(who: Identity, users: seq<User>, t: Task, today: int)
    requires who.role == "student"
    ensures Satisfies(BuildTaskQuery(who, users, None, today), t) <==> t.userId == who.userId
  {
  }

  /** For a teacher: their own tasks and those of the users naming them. */
  lemma TeacherSeesOwnAndStudentTasks(who: Identity, users: seq<User>, t: Task, today: int)
    requires who.role == "teacher"
    ensures Satisfies(BuildTaskQuery(who, users, None, today), t) <==>
      t.userId == who.userId || (t.userId < |users| && users[t.userId].teacherId == Some(who.userId))
  {
  }

  /** Only the two role names restrict ownership. */
  lemma OtherRolesUnrestricted(who: Identity, users: seq<User>, t: Task, today: int)
    requires who.role != "student" && who.role != "teacher"
    ensures Satisfies(BuildTaskQuery(who, users, None, today), t)
  {
  }

  /** A task without a due date is never overdue nor due this week. */
  lemma UndatedTaskOutsideWindows(who: Identity, users: seq<User>, t: Task, today: int)
    requires t.dueDate.None?
    ensures !Satisfies(BuildTaskQuery(who, users, Some("overdue"), today), t)
    ensures !Satisfies(BuildTaskQuery(who, users, Some("this-week"), today), t)
  {
  }

  /** Both ends of the week window are included: a task the requester may
      see, due at today's midnight or exactly seven days later, is listed
      under 'this-week', whatever the role. */
  lemma WeekWindowInclusive(who: Identity, users: seq<User>, t: Task, today: int)
    requires VisibleTo(who, users, t)
    requires t.dueDate == Some(today) || t.dueDate == Some(today + 7 * 86400000)
    ensures Satisfies(BuildTaskQuery(who, users, Some("this-week"), today), t)
  {
    QuerySelectsExactly(who, users, Some("this-week"), today, t);
  }

  /** A filter value other than the two names adds no date clause. */
  lemma OtherFiltersUnrestricted(who: Identity, users: seq<User>, dateFilter: Option<string>, today: int)
    requires dateFilter != Some("overdue") && dateFilter != Some("this-week")
    ensures BuildTaskQuery(who, users, dateFilter, today).date == NoDateClause
    ensures BuildTaskQuery(who, users, dateFilter, today) == BuildTaskQuery(who, users, None, today)
  {
  }

  // ------------------------------------------------------------ the store

  /** The task collection: tasks by id, and the id of the next insertion. */
  datatype Store = Store(tasks: map<Id, Task>, nextId: Id)

  /** Every id is below `nextId`, and every stored task passed the schema's
      `required` validators. */
  ghost predicate StoreValid(s: Store)
  {
    (forall id :: id in s.tasks ==> id < s.nextId) &&
    (forall id :: id in s.tasks ==> Saveable(s.tasks[id]))
  }

  // ------------------------------------------------------------ listing

  /** The ids below `n` of the stored tasks matching `q`, ascending. */
  function MatchingIds(tasks: map<Id, Task>, q: TaskQuery, n: nat): (r: seq<Id>)
    ensures forall id :: id in r <==> id < n && id in tasks && Satisfies(q, tasks[id])
    ensures forall i, j :: 0 <= i < j < |r| ==> r[i] < r[j]
  {
    if n == 0 then []
    else
      var rest := MatchingIds(tasks, q, n - 1);
      assert forall i :: 0 <= i < |rest| ==> rest[i] in rest;
      if n - 1 in tasks && Satisfies(q, tasks[n - 1]) then rest + [n - 1] else rest
  }

  /** One listing item: the task and its id, with the owner's email as
      `creatorName` and the owner's role, as `populate('userId', 'email role')`
      supplies them. */
  function Enrich(id: Id, t: Task, users: seq<User>): TaskView
    requires t.userId < |users|
  {
    TaskView(id, t.userId, t.title, t.description, t.dueDate, t.progress, t.createdAt,
             users[t.userId].email, users[t.userId].role)
  }

  predicate OwnersKnown(ids: seq<Id>, tasks: map<Id, Task>, users: seq<User>)
  {
    forall i :: 0 <= i < |ids| ==> ids[i] in tasks && tasks[ids[i]].userId < |users|
  }

  /** The items of `ids`, one per id in that order. Each item carries the
      stored task of its own id, with that task's owner's email and role. */
  function Views(ids: seq<Id>, tasks: map<Id, Task>, users: seq<User>): (r: seq<TaskView>)
    requires OwnersKnown(ids, tasks, users)
    ensures |r| == |ids| && forall i :: 0 <= i < |ids| ==> r[i].id == ids[i]
    ensures forall v :: v in r ==>
      v.id in tasks && tasks[v.id].userId < |users| && v == Enrich(v.id, tasks[v.id], users) &&
      v.userId == tasks[v.id].userId && v.creatorName == users[v.userId].email && v.role == users[v.userId].role
  {
    seq(|ids|, i requires 0 <= i < |ids| => Enrich(ids[i], tasks[ids[i]], users))
  }

  /** `sort({createdAt: -1})`: no item is older than one after it, and
      items without a creation time come last. */
  predicate NewestFirst(vs: seq<TaskView>)
  {
    forall i, j :: 0 <= i < j < |vs| ==> NotNewer(vs[j].createdAt, vs[i].createdAt)
  }

  function InsertNewestFirst(v: TaskView, vs: seq<TaskView>): (r: seq<TaskView>)
    requires NewestFirst(vs)
    ensures NewestFirst(r)
    ensures multiset(r) == multiset(vs) + multiset{v}
  {
    if vs == [] then [v]
    else if NotNewer(vs[0].createdAt, v.createdAt) then [v] + vs
    else
      var rest := InsertNewestFirst(v, vs[1..]);
      assert vs == [vs[0]] + vs[1..];
      InsertedBelowHead(v, vs, rest);
      [vs[0]] + rest
  }

  /** What is inserted behind the head of a sorted list stays below it. */
  lemma InsertedBelowHead(v: TaskView, vs: seq<TaskView>, rest: seq<TaskView>)
    requires vs != [] && NewestFirst(vs) && !NotNewer(vs[0].createdAt, v.createdAt)
    requires multiset(rest) == multiset(vs[1..]) + multiset{v}
    ensures forall k :: 0 <= k < |rest| ==> NotNewer(rest[k].createdAt, vs[0].createdAt)
  {
    forall k | 0 <= k < |rest|
      ensures NotNewer(rest[k].createdAt, vs[0].createdAt)
    {
      assert rest[k] in multiset(rest);
      if rest[k] != v {
        assert rest[k] in multiset(vs[1..]);
        var j :| 0 <= j < |vs[1..]| && vs[1..][j] == rest[k];
        assert vs[j + 1] == rest[k];
      }
    }
  }

  function SortNewestFirst(vs: seq<TaskView>): (r: seq<TaskView>)
    ensures NewestFirst(r)
    ensures multiset(r) == multiset(vs)
  {
    if vs == [] then []
    else
      assert vs == [vs[0]] + vs[1..];
      InsertNewestFirst(vs[0], SortNewestFirst(vs[1..]))
  }

  /** `getTasks`: the matching tasks, newest first, enriched. A matching task
      whose owner is not in the user table populates to `null`, reading its
      `_id` throws, and the handler answers 500. */
  function Listing(s: Store, users: seq<User>, who: Identity, dateFilter: Option<string>, today: int): Response
  {
    var ids := MatchingIds(s.tasks, BuildTaskQuery(who, users, dateFilter, today), s.nextId);
    if OwnersKnown(ids, s.tasks, users)
    then Response(200, TaskList(SortNewestFirst(Views(ids, s.tasks, users))))
    else Response(500, Failure(LoadFailedMessage))
  }

  /** Without repetitions a value occurs at most once. */
  lemma {:induction false} DistinctOccursOnce(s: seq<TaskView>, x: TaskView)
    requires forall i, j :: 0 <= i < j < |s| ==> s[i] != s[j]
    ensures multiset(s)[x] <= 1
  {
    if s != [] {
      assert s == [s[0]] + s[1..];
      DistinctOccursOnce(s[1..], x);
      if s[0] == x {
        assert x !in s[1..];
      }
    }
  }

  /** A value at two positions occurs at least twice. */
  lemma TwiceOccursTwice(s: seq<TaskView>, i: nat, j: nat)
    requires i < j < |s| && s[i] == s[j]
    ensures multiset(s)[s[i]] >= 2
  {
    assert s == s[..j] + s[j..];
    assert s[i] in s[..j];
    assert s[j..][0] == s[j];
  }

  /** A stored task the requester may see, inside the filter's window. */
  ghost predicate Listed(s: Store, users: seq<User>, who: Identity, dateFilter: Option<string>, today: int, id: Id)
  {
    id in s.tasks && VisibleTo(who, users, s.tasks[id]) && InWindow(dateFilter, today, s.tasks[id])
  }

  /** The ids the listing's query selects are the listed ones. */
  lemma SelectedIds(s: Store, users: seq<User>, who: Identity, dateFilter: Option<string>, today: int)
    requires StoreValid(s)
    ensures var ids := MatchingIds(s.tasks, BuildTaskQuery(who, users, dateFilter, today), s.nextId);
      forall id :: id in ids <==> Listed(s, users, who, dateFilter, today, id)
  {
    forall id | id in s.tasks
      ensures Satisfies(BuildTaskQuery(who, users, dateFilter, today), s.tasks[id]) <==>
        VisibleTo(who, users, s.tasks[id]) && InWindow(dateFilter, today, s.tasks[id])
    {
      QuerySelectsExactly(who, users, dateFilter, today, s.tasks[id]);
    }
  }

  /** A permutation has the same members. */
  lemma PermutedMembers(vs: seq<TaskView>, items: seq<TaskView>)
    requires multiset(items) == multiset(vs)
    ensures forall k :: 0 <= k < |items| ==> items[k] in vs
    ensures forall i :: 0 <= i < |vs| ==> vs[i] in items
  {
    forall k | 0 <= k < |items| ensures items[k] in vs {
      assert items[k] in multiset(items);
    }
    forall i | 0 <= i < |vs| ensures vs[i] in items {
      assert vs[i] in multiset(vs);
    }
  }

  /** A permutation of items with distinct ids has distinct ids. */
  lemma PermutedDistinct(vs: seq<TaskView>, items: seq<TaskView>)
    requires multiset(items) == multiset(vs)
    requires forall i, j :: 0 <= i < j < |vs| ==> vs[i].id != vs[j].id
    ensures forall k1, k2 :: 0 <= k1 < k2 < |items| ==> items[k1].id != items[k2].id
  {
    PermutedMembers(vs, items);
    assert forall i, j :: 0 <= i < j < |vs| ==> vs[i] != vs[j];
    forall k1, k2 | 0 <= k1 < k2 < |items|
      ensures items[k1].id != items[k2].id
    {
      if items[k1].id == items[k2].id {
        var i1 :| 0 <= i1 < |vs| && vs[i1] == items[k1];
        var i2 :| 0 <= i2 < |vs| && vs[i2] == items[k2];
        assert i1 == i2;
        TwiceOccursTwice(items, k1, k2);
        DistinctOccursOnce(vs, items[k1]);
      }
    }
  }

  /** The sorted, enriched items of an ascending id list: newest first, one
      per id, each the enrichment of its task. */
  lemma ItemsOfIds(ids: seq<Id>, tasks: map<Id, Task>, users: seq<User>)
    requires OwnersKnown(ids, tasks, users)
    requires forall i, j :: 0 <= i < j < |ids| ==> ids[i] < ids[j]
    ensures var items := SortNewestFirst(Views(ids, tasks, users));
      NewestFirst(items) &&
      (forall k :: 0 <= k < |items| ==>
         items[k].id in tasks && tasks[items[k].id].userId < |users| &&
         items[k] == Enrich(items[k].id, tasks[items[k].id], users)) &&
      (forall id :: id in ids <==> exists k :: 0 <= k < |items| && items[k].id == id) &&
      (forall k1, k2 :: 0 <= k1 < k2 < |items| ==> items[k1].id != items[k2].id)
  {
    var vs := Views(ids, tasks, users);
    var items := SortNewestFirst(vs);
    PermutedMembers(vs, items);
    PermutedDistinct(vs, items);
    forall k | 0 <= k < |items|
      ensures items[k].id in ids && items[k].id in tasks && tasks[items[k].id].userId < |users|
      ensures items[k] == Enrich(items[k].id, tasks[items[k].id], users)
    {
      var i :| 0 <= i < |vs| && vs[i] == items[k];
      assert ids[i] in ids;
    }
    forall id | id in ids
      ensures exists k :: 0 <= k < |items| && items[k].id == id
    {
      var i :| 0 <= i < |ids| && ids[i] == id;
      var k :| 0 <= k < |items| && items[k] == vs[i];
    }
  }

  /** The listing, described outright: it fails exactly when a listed task's
      owner is unknown; otherwise it holds every listed task once, each with
      its owner's email and role, newest first. */
  lemma ListingExact(s: Store, users: seq<User>, who: Identity, dateFilter: Option<string>, today: int)
    requires StoreValid(s)
    ensures var r := Listing(s, users, who, dateFilter, today);
      (r.status == 500 && r.body == Failure(LoadFailedMessage)) || (r.status == 200 && r.body.TaskList?)
    ensures var r := Listing(s, users, who, dateFilter, today);
      r.status == 500 <==>
        exists id :: Listed(s, users, who, dateFilter, today, id) && s.tasks[id].userId >= |users|
    ensures var r := Listing(s, users, who, dateFilter, today);
      r.status == 200 ==>
        var items := r.body.items;
        NewestFirst(items) &&
        (forall k :: 0 <= k < |items| ==>
           items[k].id in s.tasks && s.tasks[items[k].id].userId < |users| &&
           items[k] == Enrich(items[k].id, s.tasks[items[k].id], users)) &&
        (forall id :: Listed(s, users, who, dateFilter, today, id) <==>
           exists k :: 0 <= k < |items| && items[k].id == id) &&
        (forall k1, k2 :: 0 <= k1 < k2 < |items| ==> items[k1].id != items[k2].id)
  {
    var ids := MatchingIds(s.tasks, BuildTaskQuery(who, users, dateFilter, today), s.nextId);
    SelectedIds(s, users, who, dateFilter, today);
    ListingFailsExactly(s, users, who, dateFilter, today, ids);
    if OwnersKnown(ids, s.tasks, users) {
      ItemsOfIds(ids, s.tasks, users);
      assert Listing(s, users, who, dateFilter, today) == Response(200, TaskList(SortNewestFirst(Views(ids, s.tasks, users))));
    }
  }

  /** The listing fails exactly when a selected task's owner is unknown. */
  lemma ListingFailsExactly(s: Store, users: seq<User>, who: Identity, dateFilter: Option<string>, today: int,
                            ids: seq<Id>)
    requires ids == MatchingIds(s.tasks, BuildTaskQuery(who, users, dateFilter, today), s.nextId)
    requires forall id :: id in ids <==> Listed(s, users, who, dateFilter, today, id)
    ensures !OwnersKnown(ids, s.tasks, users) <==>
      exists id :: Listed(s, users, who, dateFilter, today, id) && s.tasks[id].userId >= |users|
    ensures !OwnersKnown(ids, s.tasks, users) ==>
      Listing(s, users, who, dateFilter, today) == Response(500, Failure(LoadFailedMessage))
    ensures OwnersKnown(ids, s.tasks, users) ==> Listing(s, users, who, dateFilter, today).status == 200
  {
    if !OwnersKnown(ids, s.tasks, users) {
      var i :| 0 <= i < |ids| && !(ids[i] in s.tasks && s.tasks[ids[i]].userId < |users|);
      assert ids[i] in ids;
    } else {
      forall id | Listed(s, users, who, dateFilter, today, id)
        ensures s.tasks[id].userId < |users|
      {
        assert id in ids;
        var i :| 0 <= i < |ids| && ids[i] == id;
      }
    }
  }

  // ------------------------------------------------------------ createTask

  /** A String path of the document built from the body: the text the
      cast gives, or missing for an absent value, `null` or a value the cast
      refuses (either way `save()` then fails). */
  function TextField(v: Option<Value>): (r: Option<string>)
    ensures r.Some? <==> v.Some? && CastString(v.value).Text?
    ensures r.Some? ==> CastString(v.value) == Text(r.value)
  {
    match v
    case Some(x) => (match CastString(x) case Text(t) => Some(t) case _ => None)
    case None => None
  }

  /** `dueDate: dueDate || null`, cast to a Date: `Some(None)` is no due date,
      `None` a value the cast rejects. Every falsy value, the number 0
      included, becomes `null`; a truthy one is the date the cast gives. */
  function CreationDueDate(v: Option<Value>, parseDate: string -> Option<int>): (r: Option<Option<int>>)
    ensures !Truthy(v) ==> r == Some(None)
    ensures Truthy(v) ==> (r.Some? <==> CastDate(v.value, parseDate).Date?)
    ensures Truthy(v) && r.Some? ==> r.value == Some(CastDate(v.value, parseDate).ms)
    ensures Truthy(v) && v.value.Num? ==> r == (if InTimeRange(v.value.n) then Some(Some(v.value.n)) else None)
    ensures Truthy(v) && v.value.Bool? ==> r.None?
  {
    if !Truthy(v) then Some(None)
    else
      match CastDate(v.value, parseDate)
      case NoDate => Some(None)
      case Date(ms) => Some(Some(ms))
      case BadDate => None
  }

  /** `new Task({...}).save()` with the due date `due` already cast
      (`None` when the cast failed). */
  function CreateWithDueDate(s: Store, who: Identity, body: Body, now: int, due: Option<Option<int>>): (Response, Store)
  {
    var draft := TaskDraft(Some(who.userId), TextField(Get(body, "title")), TextField(Get(body, "description")),
                           if due.Some? then due.value else None, Some(ProgressName(NotStarted)), None);
    if due.None? then (Response(500, Failure(CreateFailedMessage)), s)
    else
      match Instantiate(draft, now)
      case None => (Response(500, Failure(CreateFailedMessage)), s)
      case Some(t) =>
        (Response(201, TaskDone(s.nextId, t, CreatedMessage)), Store(s.tasks[s.nextId := t], s.nextId + 1))
  }

  function CreateOutcome(s: Store, who: Identity, body: Body, now: int, parseDate: string -> Option<int>): (Response, Store)
  {
    CreateWithDueDate(s, who, body, now, CreationDueDate(Get(body, "dueDate"), parseDate))
  }

  /** Creation with any cast due date: 201 exactly when the title and the
      description cast to non-empty text and the due date cast succeeded;
      the task belongs to the requester, starts 'not-started', carries the
      cast title, description and due date and the current time; nothing
      else changes. */
  lemma CreateWithDueDateExact(s: Store, who: Identity, body: Body, now: int, due: Option<Option<int>>)
    requires StoreValid(s)
    ensures var (r, s') := CreateWithDueDate(s, who, body, now, due);
      StoreValid(s') &&
      (r.status == 201 || (r == Response(500, Failure(CreateFailedMessage)) && s' == s)) &&
      (r.status == 201 <==>
         TruthyText(TextField(Get(body, "title"))) && TruthyText(TextField(Get(body, "description"))) && due.Some?)
    ensures var (r, s') := CreateWithDueDate(s, who, body, now, due);
      r.status == 201 ==>
        var t := s'.tasks[s.nextId];
        s.nextId !in s.tasks && s'.tasks == s.tasks[s.nextId := t] && s'.nextId == s.nextId + 1 &&
        r.body == TaskDone(s.nextId, t, CreatedMessage) &&
        t.userId == who.userId && t.progress == Some(NotStarted) && t.createdAt == Some(now) &&
        CastString(Get(body, "title").value) == Text(t.title) &&
        CastString(Get(body, "description").value) == Text(t.description) &&
        Some(t.dueDate) == due
  {
  }

  /** A created task belongs to the requester, whatever the body says, starts
      'not-started', carries the title and description as the String cast
      gives them, the due date as the Date cast gives it (no due date for a
      falsy one) and the current time; nothing else changes. */
  lemma CreateExact(s: Store, who: Identity, body: Body, now: int, parseDate: string -> Option<int>)
    requires StoreValid(s)
    ensures var (r, s') := CreateOutcome(s, who, body, now, parseDate);
      StoreValid(s') &&
      (r.status == 201 || (r == Response(500, Failure(CreateFailedMessage)) && s' == s)) &&
      (r.status == 201 <==>
         TruthyText(TextField(Get(body, "title"))) && TruthyText(TextField(Get(body, "description"))) &&
         CreationDueDate(Get(body, "dueDate"), parseDate).Some?)
    ensures var (r, s') := CreateOutcome(s, who, body, now, parseDate);
      r.status == 201 ==>
        var t := s'.tasks[s.nextId];
        s.nextId !in s.tasks && s'.tasks == s.tasks[s.nextId := t] && s'.nextId == s.nextId + 1 &&
        r.body == TaskDone(s.nextId, t, CreatedMessage) &&
        t.userId == who.userId && t.progress == Some(NotStarted) && t.createdAt == Some(now) &&
        CastString(Get(body, "title").value) == Text(t.title) &&
        CastString(Get(body, "description").value) == Text(t.description) &&
        Some(t.dueDate) == CreationDueDate(Get(body, "dueDate"), parseDate)
  {
    CreateWithDueDateExact(s, who, body, now, CreationDueDate(Get(body, "dueDate"), parseDate));
  }

  /** A body without a due date, or with `null`, '' or 0, creates a task with
      no due date. */
  lemma FalsyDueDateStoredAsNull(s: Store, who: Identity, body: Body, now: int, parseDate: string -> Option<int>)
    requires StoreValid(s)
    requires !Truthy(Get(body, "dueDate"))
    ensures var (r, s') := CreateOutcome(s, who, body, now, parseDate);
      r.status == 201 ==> s'.tasks[s.nextId].dueDate.None?
  {
    CreateExact(s, who, body, now, parseDate);
  }

  // ------------------------------------------------------------ updateTask

  /** One path of a `$set`: left as it is, or set to a value. */
  datatype Field<T> = Keep | Put(value: T)

  /** The `$set` a body amounts to on the paths of the task schema; strict
      mode drops every other key. */
  datatype Patch = Patch(userId: Field<Id>, title: Field<string>, description: Field<string>,
                         dueDate: Field<Option<int>>, progress: Field<Option<Progress>>, createdAt: Field<Option<int>>)

  /** The `userId` path under `$set`: a string is cast to an ObjectId (a
      failed cast throws); `null` fails the `required` validator, and any
      other value fails the cast. */
  function PatchOwner(v: Option<Value>, castId: string -> Option<Id>): (r: Option<Field<Id>>)
    ensures v.None? ==> r == Some(Keep)
    ensures v.Some? ==> (r.Some? <==> v.value.Str? && castId(v.value.s).Some?)
    ensures r.Some? && v.Some? ==> r.value == Put(castId(v.value.s).value)
  {
    match v
    case None => Some(Keep)
    case Some(Str(s)) => (match castId(s) case Some(id) => Some(Put(id)) case None => None)
    case Some(_) => None
  }

  /** A String path with a `required` validator under `$set` with
      `runValidators`: the value is cast to text, and the validator rejects
      '' and `null`. */
  function PatchText(v: Option<Value>): (r: Option<Field<string>>)
    ensures v.None? ==> r == Some(Keep)
    ensures v.Some? ==> (r.Some? <==> CastString(v.value).Text? && CastString(v.value).s != "")
    ensures r.Some? && v.Some? ==> r.value == Put(CastString(v.value).s)
  {
    match v
    case None => Some(Keep)
    case Some(x) =>
      match CastString(x)
      case Text(t) => if t == "" then None else Some(Put(t))
      case _ => None
  }

  /** A Date path (`dueDate`, `createdAt`) under `$set`: `null` and '' clear
      it (no `|| null` here, so 0 is the epoch), a number in range or a date
      string sets it. */
  function PatchDate(v: Option<Value>, parseDate: string -> Option<int>): (r: Option<Field<Option<int>>>)
    ensures v.None? ==> r == Some(Keep)
    ensures v.Some? ==> (r.None? <==> CastDate(v.value, parseDate) == BadDate)
    ensures v.Some? && (v.value.Null? || v.value == Str("")) ==> r == Some(Put(None))
    ensures v.Some? && v.value.Num? ==> r == (if InTimeRange(v.value.n) then Some(Put(Some(v.value.n))) else None)
  {
    match v
    case None => Some(Keep)
    case Some(x) =>
      match CastDate(x, parseDate)
      case NoDate => Some(Put(None))
      case Date(ms) => Some(Put(Some(ms)))
      case BadDate => None
  }

  /** The `progress` path under `$set`: the value is cast to text, and the
      enum validator (`null == v ||` one of the names) admits `null`, which
      clears the path, and the three names. */
  function PatchProgress(v: Option<Value>): (r: Option<Field<Option<Progress>>>)
    ensures v.None? ==> r == Some(Keep)
    ensures v.Some? ==> (r.Some? <==> v.value.Null? || (CastString(v.value).Text? && CastString(v.value).s in ProgressNames))
    ensures v.Some? && v.value.Null? ==> r == Some(Put(None))
    ensures r.Some? && v.Some? && !v.value.Null? ==>
      r.value.Put? && r.value.value.Some? && ProgressName(r.value.value.value) == CastString(v.value).s
  {
    match v
    case None => Some(Keep)
    case Some(x) =>
      match CastString(x)
      case NullText => Some(Put(None))
      case Text(t) => (match ParseProgress(t) case Some(p) => Some(Put(Some(p))) case None => None)
      case BadText => None
  }

  /** The patch of a body, or `None` when a cast or validator fails. */
  function ReadPatch(body: Body, parseDate: string -> Option<int>, castId: string -> Option<Id>): Option<Patch>
  {
    var userId := PatchOwner(Get(body, "userId"), castId);
    var title := PatchText(Get(body, "title"));
    var description := PatchText(Get(body, "description"));
    var dueDate := PatchDate(Get(body, "dueDate"), parseDate);
    var progress := PatchProgress(Get(body, "progress"));
    var createdAt := PatchDate(Get(body, "createdAt"), parseDate);
    if userId.None? || title.None? || description.None? || dueDate.None? || progress.None? || createdAt.None? then None
    else Some(Patch(userId.value, title.value, description.value, dueDate.value, progress.value, createdAt.value))
  }

  function Pick<T>(f: Field<T>, current: T): T
  {
    match f
    case Keep => current
    case Put(v) => v
  }

  function ApplyPatch(t: Task, p: Patch): Task
  {
    Task(Pick(p.userId, t.userId), Pick(p.title, t.title), Pick(p.description, t.description),
         Pick(p.dueDate, t.dueDate), Pick(p.progress, t.progress), Pick(p.createdAt, t.createdAt))
  }

  /** `updateTask` on task id text `taskId`: an id that does not cast to an
      ObjectId throws (500); then 404, then the owner check (403), then the
      `$set`, whose validators may throw (500). */
  function UpdateOutcome(s: Store, who: Identity, taskId: string, body: Body,
                         parseDate: string -> Option<int>, castId: string -> Option<Id>): (Response, Store)
  {
    match castId(taskId)
    case None => (Response(500, Failure(UpdateFailedMessage)), s)
    case Some(id) =>
      if id !in s.tasks then (Response(404, Failure(NotFoundMessage)), s)
      else if s.tasks[id].userId != who.userId then (Response(403, Failure(UpdateForbiddenMessage)), s)
      else
        match ReadPatch(body, parseDate, castId)
        case None => (Response(500, Failure(UpdateFailedMessage)), s)
        case Some(p) =>
          var t := ApplyPatch(s.tasks[id], p);
          (Response(200, TaskDone(id, t, UpdatedMessage)), Store(s.tasks[id := t], s.nextId))
  }

  /** How a Date path of the updated task relates to the body's value. */
  ghost predicate DateAsSupplied(v: Option<Value>, old_: Option<int>, new_: Option<int>, parseDate: string -> Option<int>)
  {
    if v.Some? then
      (match CastDate(v.value, parseDate)
       case NoDate => new_.None?
       case Date(ms) => new_ == Some(ms)
       case BadDate => false)
    else new_ == old_
  }

  /** The value a field of the updated task takes: the body's, as the path's
      cast gives it, when it names the field, the old one otherwise. This holds for the owner and the
      creation time as well, since `$set` takes every schema path the body
      names. */
  ghost predicate UpdatedAsSupplied(old_: Task, new_: Task, body: Body,
                                    parseDate: string -> Option<int>, castId: string -> Option<Id>)
  {
    (if HasKey(body, "userId") then
       Get(body, "userId").value.Str? && castId(Get(body, "userId").value.s) == Some(new_.userId)
     else new_.userId == old_.userId) &&
    DateAsSupplied(Get(body, "createdAt"), old_.createdAt, new_.createdAt, parseDate) &&
    DateAsSupplied(Get(body, "dueDate"), old_.dueDate, new_.dueDate, parseDate) &&
    (if HasKey(body, "title") then CastString(Get(body, "title").value) == Text(new_.title)
     else new_.title == old_.title) &&
    (if HasKey(body, "description") then CastString(Get(body, "description").value) == Text(new_.description)
     else new_.description == old_.description) &&
    (if HasKey(body, "progress") then
       (if Get(body, "progress").value.Null? then new_.progress.None?
        else new_.progress.Some? && CastString(Get(body, "progress").value) == Text(ProgressName(new_.progress.value)))
     else new_.progress == old_.progress)
  }

  /** A path the body does not name keeps its value. */
  lemma UnnamedPathsKept(old_: Task, new_: Task, body: Body, parseDate: string -> Option<int>, castId: string -> Option<Id>)
    requires UpdatedAsSupplied(old_, new_, body, parseDate, castId)
    requires !HasKey(body, "userId") && !HasKey(body, "createdAt")
    ensures new_.userId == old_.userId && new_.createdAt == old_.createdAt
  {
  }

  /** An update whose body names neither the owner nor the creation time
      keeps both. */
  lemma UpdateKeepsUnnamedPaths(s: Store, who: Identity, taskId: string, body: Body,
                                parseDate: string -> Option<int>, castId: string -> Option<Id>)
    requires StoreValid(s)
    requires !HasKey(body, "userId") && !HasKey(body, "createdAt")
    ensures var (r, s') := UpdateOutcome(s, who, taskId, body, parseDate, castId);
      r.status == 200 ==>
        var id := castId(taskId).value;
        id in s.tasks && id in s'.tasks &&
        s'.tasks[id].userId == s.tasks[id].userId && s'.tasks[id].createdAt == s.tasks[id].createdAt
  {
    UpdateExact(s, who, taskId, body, parseDate, castId);
    var (r, s') := UpdateOutcome(s, who, taskId, body, parseDate, castId);
    if r.status == 200 {
      var id := castId(taskId).value;
      UnnamedPathsKept(s.tasks[id], s'.tasks[id], body, parseDate, castId);
    }
  }

  /** A successful update changes only the target task, and of it only the
      supplied fields; it keeps the store valid. Every other outcome leaves
      the store as it was. */
  lemma UpdateExact(s: Store, who: Identity, taskId: string, body: Body,
                    parseDate: string -> Option<int>, castId: string -> Option<Id>)
    requires StoreValid(s)
    ensures var (r, s') := UpdateOutcome(s, who, taskId, body, parseDate, castId);
      StoreValid(s') && (r.status != 200 ==> s' == s) && r.status in {200, 403, 404, 500}
    ensures var (r, s') := UpdateOutcome(s, who, taskId, body, parseDate, castId);
      r.status == 200 ==>
        var id := castId(taskId).value;
        id in s.tasks && s.tasks[id].userId == who.userId &&
        s'.nextId == s.nextId && s'.tasks.Keys == s.tasks.Keys &&
        (forall other :: other in s.tasks && other != id ==> s'.tasks[other] == s.tasks[other]) &&
        r.body == TaskDone(id, s'.tasks[id], UpdatedMessage) &&
        UpdatedAsSupplied(s.tasks[id], s'.tasks[id], body, parseDate, castId)
  {
    match castId(taskId)
    case None =>
    case Some(id) =>
      if id in s.tasks && s.tasks[id].userId == who.userId && ReadPatch(body, parseDate, castId).Some? {
        PatchAsSupplied(s.tasks[id], body, parseDate, castId);
      }
  }

  /** A patch read from a body sets exactly the fields the body names, and
      keeps a saveable task saveable. */
  lemma PatchAsSupplied(t: Task, body: Body, parseDate: string -> Option<int>, castId: string -> Option<Id>)
    requires ReadPatch(body, parseDate, castId).Some?
    ensures var t' := ApplyPatch(t, ReadPatch(body, parseDate, castId).value);
      UpdatedAsSupplied(t, t', body, parseDate, castId) && (Saveable(t) ==> Saveable(t'))
  {
    var p := ReadPatch(body, parseDate, castId).value;
    assert p.userId == PatchOwner(Get(body, "userId"), castId).value;
    assert p.title == PatchText(Get(body, "title")).value;
    assert p.description == PatchText(Get(body, "description")).value;
    assert p.dueDate == PatchDate(Get(body, "dueDate"), parseDate).value;
    assert p.progress == PatchProgress(Get(body, "progress")).value;
    assert p.createdAt == PatchDate(Get(body, "createdAt"), parseDate).value;
    DatePatchAsSupplied(Get(body, "dueDate"), t.dueDate, parseDate);
    DatePatchAsSupplied(Get(body, "createdAt"), t.createdAt, parseDate);
  }

  lemma DatePatchAsSupplied(v: Option<Value>, current: Option<int>, parseDate: string -> Option<int>)
    requires PatchDate(v, parseDate).Some?
    ensures DateAsSupplied(v, current, Pick(PatchDate(v, parseDate).value, current), parseDate)
  {
  }

  // ------------------------------------------------------------ deleteTask

  function DeleteOutcome(s: Store, who: Identity, taskId: string, castId: string -> Option<Id>): (Response, Store)
  {
    match castId(taskId)
    case None => (Response(500, Failure(DeleteFailedMessage)), s)
    case Some(id) =>
      if id !in s.tasks then (Response(404, Failure(NotFoundMessage)), s)
      else if s.tasks[id].userId != who.userId then (Response(403, Failure(DeleteForbiddenMessage)), s)
      else (Response(204, NoContent), Store(s.tasks - {id}, s.nextId))
  }

  /** A successful delete removes exactly that task, and deleting it again
      finds nothing. */
  lemma DeleteExact(s: Store, who: Identity, taskId: string, castId: string -> Option<Id>)
    requires StoreValid(s)
    ensures var (r, s') := DeleteOutcome(s, who, taskId, castId);
      StoreValid(s') && (r.status != 204 ==> s' == s) && r.status in {204, 403, 404, 500}
    ensures var (r, s') := DeleteOutcome(s, who, taskId, castId);
      r.status == 204 ==>
        var id := castId(taskId).value;
        id in s.tasks && s.tasks[id].userId == who.userId && r.body == NoContent &&
        s'.tasks.Keys == s.tasks.Keys - {id} && s'.nextId == s.nextId &&
        (forall other :: other in s'.tasks ==> s'.tasks[other] == s.tasks[other]) &&
        DeleteOutcome(s', who, taskId, castId).0 == Response(404, Failure(NotFoundMessage))
  {
  }

  // -------------------------------------------- the owner-only rule

  /** A missing task is reported as such before ownership is looked at, for
      update (whatever the body) and delete alike. */
  lemma NotFoundBeforeForbidden(s: Store, who: Identity, taskId: string, body: Body,
                                parseDate: string -> Option<int>, castId: string -> Option<Id>)
    requires castId(taskId).Some? && castId(taskId).value !in s.tasks
    ensures UpdateOutcome(s, who, taskId, body, parseDate, castId) == (Response(404, Failure(NotFoundMessage)), s)
    ensures DeleteOutcome(s, who, taskId, castId) == (Response(404, Failure(NotFoundMessage)), s)
  {
  }

  /** Whoever is not the owner, of any role, gets 403 and changes nothing. */
  lemma NonOwnerForbidden(s: Store, who: Identity, taskId: string, body: Body,
                          parseDate: string -> Option<int>, castId: string -> Option<Id>)
    requires castId(taskId).Some? && castId(taskId).value in s.tasks
    requires s.tasks[castId(taskId).value].userId != who.userId
    ensures UpdateOutcome(s, who, taskId, body, parseDate, castId) == (Response(403, Failure(UpdateForbiddenMessage)), s)
    ensures DeleteOutcome(s, who, taskId, castId) == (Response(403, Failure(DeleteForbiddenMessage)), s)
  {
  }

  /** The asymmetry: a teacher lists a student's task (subject to the date
      filter) yet may neither update nor delete it. */
  lemma TeacherSeesButCannotChange(s: Store, users: seq<User>, who: Identity, id: Id, body: Body, today: int,
                                   taskId: string, parseDate: string -> Option<int>, castId: string -> Option<Id>)
    requires StoreValid(s)
    requires who.role == "teacher" && castId(taskId) == Some(id) && id in s.tasks
    requires s.tasks[id].userId != who.userId && s.tasks[id].userId < |users|
    requires users[s.tasks[id].userId].teacherId == Some(who.userId)
    ensures Listing(s, users, who, None, today).status == 200 ==>
      exists k :: 0 <= k < |Listing(s, users, who, None, today).body.items| &&
        Listing(s, users, who, None, today).body.items[k].id == id
    ensures UpdateOutcome(s, who, taskId, body, parseDate, castId).0.status == 403
    ensures DeleteOutcome(s, who, taskId, castId).0.status == 403
  {
    assert who.role != "student";
    assert Listed(s, users, who, None, today, id);
    ListingExact(s, users, who, None, today);
    NonOwnerForbidden(s, who, taskId, body, parseDate, castId);
  }

  // ------------------------------------------------------------ the class

  /** The task collection as the controller changes it in place. */
  class TaskStore {
    var tasks: map<Id, Task>
    var nextId: Id

    function State(): Store
      reads this
    {
      Store(tasks, nextId)
    }

    ghost predicate Valid()
      reads this
    {
      StoreValid(State())
    }

    constructor()
      ensures Valid() && tasks == map[] && nextId == 0
    {
      tasks := map[];
      nextId := 0;
    }

    /** `createTask`: build the document, save it, answer 201 or 500. */
    method Create(who: Identity, body: Body, now: int, parseDate: string -> Option<int>) returns (r: Response)
      requires Valid()
      modifies this
      ensures Valid()
      ensures (r, State()) == CreateOutcome(old(State()), who, body, now, parseDate)
    {
      var due := CreationDueDate(Get(body, "dueDate"), parseDate);
      if due.None? {
        return Response(500, Failure(CreateFailedMessage));
      }
      var draft := TaskDraft(Some(who.userId), TextField(Get(body, "title")), TextField(Get(body, "description")),
                             due.value, Some(ProgressName(NotStarted)), None);
      var task := Instantiate(draft, now);
      if task.None? {
        return Response(500, Failure(CreateFailedMessage));
      }
      CreateExact(State(), who, body, now, parseDate);
      var id := nextId;
      tasks := tasks[id := task.value];
      nextId := nextId + 1;
      r := Response(201, TaskDone(id, task.value, CreatedMessage));
    }

    /** `updateTask`: find, check the owner, apply the `$set`. */
    method Update(who: Identity, taskId: string, body: Body,
                  parseDate: string -> Option<int>, castId: string -> Option<Id>) returns (r: Response)
      requires Valid()
      modifies this
      ensures Valid()
      ensures (r, State()) == UpdateOutcome(old(State()), who, taskId, body, parseDate, castId)
    {
      UpdateExact(State(), who, taskId, body, parseDate, castId);
      var id := castId(taskId);
      if id.None? {
        return Response(500, Failure(UpdateFailedMessage));
      }
      if id.value !in tasks {
        return Response(404, Failure(NotFoundMessage));
      }
      var task := tasks[id.value];
      if task.userId != who.userId {
        return Response(403, Failure(UpdateForbiddenMessage));
      }
      var patch := ReadPatch(body, parseDate, castId);
      if patch.None? {
        return Response(500, Failure(UpdateFailedMessage));
      }
      var updated := ApplyPatch(task, patch.value);
      tasks := tasks[id.value := updated];
      r := Response(200, TaskDone(id.value, updated, UpdatedMessage));
    }

    /** `deleteTask`: find, check the owner, remove. */
    method Delete(who: Identity, taskId: string, castId: string -> Option<Id>) returns (r: Response)
      requires Valid()
      modifies this
      ensures Valid()
      ensures (r, State()) == DeleteOutcome(old(State()), who, taskId, castId)
    {
      DeleteExact(State(), who, taskId, castId);
      var id := castId(taskId);
      if id.None? {
        return Response(500, Failure(DeleteFailedMessage));
      }
      if id.value !in tasks {
        return Response(404, Failure(NotFoundMessage));
      }
      if tasks[id.value].userId != who.userId {
        return Response(403, Failure(DeleteForbiddenMessage));
      }
      tasks := tasks - {id.value};
      r := Response(204, NoContent);
    }
  }
}
