# Task tracker: a Dafny model

The system is a small task-tracking application for students and teachers.

- An Express server holds users and tasks in MongoDB. It issues JSON Web Tokens at login, and every task route checks the token.
- Task bodies and signup bodies are checked by Joi schemas.
- A student sees their own tasks. A teacher sees their own tasks and the tasks of every student who names them as teacher. Only a task's owner may update or delete it, teachers included.
- A React client keeps the session in `localStorage`. It lists, filters, creates, edits and deletes tasks.

The model has one Dafny module per source file:

| module | file |
|---|---|
| `TaskModel` | `server/models/Task.js` |
| `UserModel` | `server/models/User.js` |
| `Http` | the response bodies |
| `AuthMiddleware` | `server/middleware/authMiddleware.js` |
| `ErrorMiddleware` | `server/middleware/errorMiddleware.js` |
| `JoiRules` | the part of Joi the schemas use |
| `JsText` | the JavaScript conversions the casts use: `String(v)` and `Number(s)` (ECMA-262) |
| `TaskValidation` | `server/validation/taskValidation.js` |
| `AuthValidation` | `server/validation/authValidation.js` |
| `TaskController` | `server/controllers/taskController.js` |
| `AuthController` | `server/controllers/authController.js` |
| `TaskRoutes` | `server/routes/taskRoutes.js` |
| `AuthRoutes` | `server/routes/authRoutes.js` |
| `Dashboard` | `client/src/pages/Dashboard.js` |
| `TaskCard` | `client/src/components/TaskCard.js` |
| `TaskForm` | `client/src/components/TaskForm.js` |
| `SignupPage` | `client/src/pages/Signup.js` |
| `AuthContext` | `client/src/context/AuthContext.js` |

`Common` holds the shared pieces:

- `Option` and `Result`;
- a JSON `Value`;
- a request `Body`, an ordered list of distinct keys with values;
- string helpers for `replace`, `includes` and `join`.

Each controller operation is a pure function from the old state to the response and the new state, for example `TaskController.UpdateOutcome`. Lemmas describe that function outright. The classes change their fields in place, as the source does:

- `TaskController.TaskStore` and `AuthController.UserTable` on the server;
- `AuthContext.AuthProvider`, `Dashboard.DashboardPage`, `TaskCard.CardState`, `TaskForm.FormState` and `SignupPage.SignupForm` on the client.

Each server class method is proved equal to its outcome function. Each client method states its new state outright. Each route is the composition of its middleware and its controller.

Where the system relies on code outside this model, that code is a function parameter:

- `parseDate`: `new Date(text)` on date text, which Joi and mongoose both call;
- `castId`: the ObjectId cast;
- `isEmail`: Joi's email syntax;
- `hash` and `compare`: bcrypt;
- `sign` and `verify`: JSON Web Tokens, RFC 7519;
- `toIso`: `toISOString`;
- the outcome of each client network call, and the answer to the delete confirmation.

Dates are integer milliseconds. The start of the current day, `today`, and the current time, `now`, are parameters.

## Model

| member | source | states |
|---|---|---|
| TaskModel.ProgressName | server/models/Task.js:23-27 | each progress value has one of the three enum spellings, and reading that spelling gives the value back |
| TaskModel.ParseProgress | server/models/Task.js:23-27 | a string names a progress value exactly when it is one of 'not-started', 'in-progress', 'completed' |
| TaskModel.Instantiate | server/models/Task.js:5-32 | a document saves exactly when it has an owner, a non-empty title and description, and a progress in the enum, if one is given; the saved task carries the given fields, progress defaults to 'not-started', createdAt defaults to the current time, and the due date is optional |
| TaskModel.CastDate | server/models/Task.js:19-22 | casting to the Date path: null and '' mean no date; a number is a timestamp when it lies within ±8.64e15 ms and fails otherwise; a boolean fails; a string whose `Number(s)` is at least 275761 or below -271820 (or infinite) is that many milliseconds, any other string is date text for the parser; an array or object is the date text of its string form, and fails when that conversion throws |
| TaskModel.CastString | server/models/Task.js:10-17 | casting to a String path: null stays null (and only null does); a string is itself; a number or boolean is its `String()` text; an object is its `_id` exactly when that is a non-empty string, and fails otherwise; an array fails |
| TaskModel.NumberDate | server/models/Task.js:19-22 | `new Date(n)`: a date exactly when n is finite and within ±8.64e15 ms, at n rounded toward zero |
| UserModel.RoleName | server/models/User.js:5 | each role has one of the two enum spellings, and reading that spelling gives the role back |
| UserModel.ParseRole | server/models/User.js:5 | a string names a role exactly when it is 'student' or 'teacher' |
| UserModel.InstantiateUser | server/models/User.js:2-7 | a user saves exactly when the email and password hash are non-empty and the role is in the enum; the optional teacherId is kept as given |
| UserModel.FindByEmail | server/controllers/authController.js:15 | the id found has that email and no earlier user has it; no id is found only when no user has the email |
| UserModel.InsertUser | server/models/User.js:3 | the unique index refuses a taken email; otherwise the user is appended, and emails stay unique |
| UserModel.FindByEmailUnique | server/models/User.js:3 | when emails are unique, looking up a user's email finds exactly that user |
| ErrorMiddleware.HandleError | server/middleware/errorMiddleware.js:3-20 | the status is err.status when it is set and non-zero, otherwise 500; the message is err.message when it is non-empty, otherwise 'An unexpected error occurred.'; the body is an unsuccessful `{success, message}` |
| AuthMiddleware.ExtractToken | server/middleware/authMiddleware.js:5 | a missing header gives the empty token; the first occurrence of 'Bearer ' is cut out wherever it stands, and a header without it is the token itself |
| AuthMiddleware.Authenticate | server/middleware/authMiddleware.js:4-25 | an empty token is 401 'Access denied. No token provided.'; a token that fails verification is 401 'Invalid token.'; otherwise the identity is exactly the decoded userId and role |
| AuthMiddleware.BarePrefixHasNoToken | server/middleware/authMiddleware.js:5-9 | the header 'Bearer ' on its own yields the empty token and the no-token 401 |
| AuthMiddleware.BearerHeaderYieldsToken | server/middleware/authMiddleware.js:5 | 'Bearer ' followed by a token yields exactly that token |
| AuthMiddleware.PrefixRemovedAnywhere | server/middleware/authMiddleware.js:5 | for every a and b with no occurrence of 'Bearer ' starting inside a, `a + 'Bearer ' + b` yields `a + b`: the first occurrence is removed even when it does not open the header |
| AuthMiddleware.PrefixRemovedInExample | server/middleware/authMiddleware.js:5 | the instance 'xBearer y' → 'xy' |
| JoiRules.DescribeOpensWithQuote | server/validation/authValidation.js:11 | every default Joi message starts with the quoted key label |
| JoiRules.CheckString | server/validation/taskValidation.js:6-7 | `Joi.string()` with required/min/max/email: a value passes exactly when it is a non-empty string whose UTF-16 length meets the bounds and which meets the email syntax; an absent value fails only when it is required |
| Common.Utf16Length | server/validation/taskValidation.js:6-7 | the length Joi's min and max compare, JavaScript's `length`: between the number of characters and twice that |
| Common.Utf16LengthOfBmp | server/validation/taskValidation.js:6-7 | for text without characters outside the Basic Multilingual Plane, that length is the number of characters |
| Common.UnknownKeysStartWithFirst | server/validation/taskValidation.js:5-10 | the unlisted keys come in `Object.keys` order: the first one listed is the body's least array-index key outside the schema, or, when there is none, its first key outside the schema in insertion order |
| JoiRules.CheckOneOf | server/validation/taskValidation.js:9 | `valid(...)`: a value passes exactly when it is a string in the list, or is absent and optional |
| JoiRules.CheckOneOfAll | server/validation/taskValidation.js:9-12 | the same check without abortEarly: it fails exactly when CheckOneOf does, first with `any.only`; a value that is not a string then also gets `string.base`, and '' gets `string.empty`; a non-empty string outside the list gets `any.only` alone |
| JoiRules.CheckDate | server/validation/taskValidation.js:8 | `date().optional().allow(null, '')`: absent, null, '', numbers within ±8.64e15 ms pass; so does a string that is not white space alone and is either a digit string whose number of milliseconds is within range or text the parser reads; nothing else passes |
| JoiRules.JoiDate | server/validation/taskValidation.js:8 | Joi's reading of a date: null and '' are no date (and nothing else is); a number is that timestamp within ±8.64e15 ms; white space alone fails; a digit string `^[+-]?\d+(\.\d+)?$` is that number of milliseconds; other text goes to the parser; booleans, arrays and objects fail |
| JoiRules.DigitTextIsNumber | server/validation/taskValidation.js:8 | for every digit string, `Number(s)` is the same finite number Joi's reading gives |
| JoiRules.UnknownDetails | server/validation/taskValidation.js:5-10 | there are no unknown-key details exactly when every key of the body is listed; every unlisted key of the body has a detail and each detail names such a key; the first detail is for the first unlisted key in `Object.keys` order |
| TaskValidation.ValidateTaskCreation | server/validation/taskValidation.js:11-17 | next() exactly when there is no detail; otherwise 400 with the message of every detail Joi collects without abortEarly, joined by ', '. A progress that is not a non-empty string carries two of those details |
| TaskValidation.ValidateTaskUpdate | server/validation/taskValidation.js:18-34 | next() exactly when there is no detail; otherwise 400 with the first detail's message |
| TaskValidation.TaskDetailsEmpty | server/validation/taskValidation.js:5-10 | no detail exactly when every listed field passes its rule and no other key is present |
| TaskValidation.CreationAcceptsExactly | server/validation/taskValidation.js:5-17 | creation accepts exactly the bodies with a title of 1 to 255 UTF-16 code units, a non-empty description, an optional due date Joi reads (null, '', a timestamp in range, a digit string in range, or text that parses), a progress in the enum when present, and no other key |
| TaskValidation.UpdateAcceptsExactly | server/validation/taskValidation.js:18-34 | update accepts exactly the non-empty bodies whose present fields obey the creation rules and which carry no other key |
| TaskValidation.EmptyUpdateRejected | server/validation/taskValidation.js:25-27 | an empty update body is 400 with 'At least one field (title, description, dueDate, or progress) is required for update.' |
| TaskValidation.OwnerFieldsRejected | server/validation/taskValidation.js:5-10 | a body naming userId or createdAt is 400 under both schemas |
| TaskValidation.AcceptedUpdateNamesNoOwner | server/validation/taskValidation.js:20-27 | a body the update schema accepts names neither userId nor createdAt |
| TaskValidation.UpdateFieldsCheckedAsCreation | server/validation/taskValidation.js:21-22 | a present update field is judged exactly as on creation; only absence is treated differently |
| TaskValidation.NullAndEmptyDueDateAdmitted | server/validation/taskValidation.js:8 | null and '' pass as due dates, and an update made of either alone is accepted |
| TaskValidation.LoneDueDateAccepted | server/validation/taskValidation.js:23 | an update body made of a null or '' due date alone is accepted |
| TaskValidation.EmptyTitleDescribed | server/validation/taskValidation.js:6 | the empty-title detail reads `"title" is not allowed to be empty` |
| TaskValidation.ProgressListRendered | server/validation/taskValidation.js:9 | the three progress names joined by ', ' |
| TaskValidation.BadProgressDescribed | server/validation/taskValidation.js:9 | a bad progress reads `"progress" must be one of [not-started, in-progress, completed]` |
| TaskValidation.NotOneOfDescribed | server/validation/taskValidation.js:9 | the shape of Joi's `any.only` message |
| TaskValidation.CreationExampleDetails | server/validation/taskValidation.js:12 | with abortEarly off, a body with an empty title and an unknown progress yields both details, in schema order |
| TaskValidation.TwoDetailsReported | server/validation/taskValidation.js:13-14 | two details are reported as one 400 message joined by ', ' |
| TaskValidation.CreationReportsAll | server/validation/taskValidation.js:11-17 | an example of CreationReportsEveryFailure: an empty title and an unknown progress give both messages in one 400 |
| TaskValidation.ListedIssues | server/validation/taskValidation.js:5-10 | each listed key's Joi check fails exactly when the key fails its reference rule |
| TaskValidation.CreationReportsEveryFailure | server/validation/taskValidation.js:11-17 | for every body, each listed key that fails and each key the schema does not list has a detail, and no other key has one. A failing title, description or due date has exactly one detail. A failing progress has `any.only`, followed by `string.base` when it is not a string or `string.empty` when it is ''. The 400 joins all their messages by ', ' |
| TaskValidation.CreationIssuesByKey | server/validation/taskValidation.js:5-12 | the per-key detail counts of CreationReportsEveryFailure, with the progress details equal to the reference ProgressIssues |
| TaskValidation.BadProgressTypeReported | server/validation/taskValidation.js:9-14 | when progress is the only failing key and is not a non-empty string, the 400 is `"progress" must be one of [not-started, in-progress, completed]` followed by `"progress" must be a string`, or by `"progress" is not allowed to be empty` for '' |
| TaskValidation.NumericProgressReported | server/validation/taskValidation.js:9-14 | `{"title":"t","description":"d","progress":5}` gets the any.only and string.base messages in one 400 |
| TaskValidation.EmptyProgressReported | server/validation/taskValidation.js:9-14 | `{"title":"t","description":"d","progress":""}` gets the any.only and string.empty messages in one 400 |
| TaskValidation.DetailsByKey | server/validation/taskValidation.js:5-12 | a key has a detail exactly when its check fails or it is unlisted and present |
| TaskValidation.UpdateReportsFirst | server/validation/taskValidation.js:29-32 | an example of UpdateReportsFirstFailure: an empty title and an unknown progress give only the title's message |
| TaskValidation.UpdateReportsFirstFailure | server/validation/taskValidation.js:18-34 | for every body, the 400 carries the message of the first failing key in schema order (title, description, dueDate, progress), else of the body's first unlisted key in `Object.keys` order (array indices first, ascending), else the custom message for an empty body |
| TaskValidation.UpdateDetailInOrder | server/validation/taskValidation.js:18-34 | the reported detail is the first failing listed key's, then that of the first unknown key in `Object.keys` order, then object.min's |
| AuthValidation.ValidateSignup | server/validation/authValidation.js:9-12 | next() exactly when no detail is found; otherwise 400 with the first detail's message |
| AuthValidation.SignupAcceptsExactly | server/validation/authValidation.js:2-14 | signup accepts exactly the bodies with a non-empty email the email check admits, a password of at least 6 UTF-16 code units, a role of 'student' or 'teacher', a non-empty teacherId string for a student, and no other key |
| AuthValidation.EmailReportedFirst | server/validation/authValidation.js:4 | a body without an email gets the email message, whatever else is wrong |
| AuthValidation.StudentWithoutTeacherIdRejected | server/validation/authValidation.js:7 | a student without a teacherId is 400 `"teacherId" is required` |
| AuthValidation.TeacherIdIgnoredUnlessStudent | server/validation/authValidation.js:7 | when the role is not 'student', adding a teacherId of any value does not change the verdict |
| TaskController.StudentIds | server/controllers/taskController.js:17-18 | the student ids of a teacher are exactly the users whose teacherId names them |
| TaskController.QuerySelectsExactly | server/controllers/taskController.js:8-52 | the built query matches a task exactly when the requester may see it and it lies in the date filter's window |
| TaskController.StudentSeesOwnTasks | server/controllers/taskController.js:12-14 | a student's query matches exactly their own tasks |
| TaskController.TeacherSeesOwnAndStudentTasks | server/controllers/taskController.js:15-25 | a teacher's query matches their own tasks and those of the users naming them as teacher |
| TaskController.OtherRolesUnrestricted | server/controllers/taskController.js:9-25 | a role other than the two adds no ownership clause |
| TaskController.UndatedTaskOutsideWindows | server/controllers/taskController.js:33-41 | a task without a due date is neither overdue nor due this week |
| TaskController.WeekWindowInclusive | server/controllers/taskController.js:37-41 | for every role, a task the requester may see that is due exactly at today's midnight or seven days later is selected by 'this-week' |
| TaskController.OtherFiltersUnrestricted | server/controllers/taskController.js:28-48 | a filter value other than 'overdue' and 'this-week' adds no date clause |
| TaskController.MatchingIds | server/controllers/taskController.js:61 | the selected ids are exactly the stored tasks matching the query, ascending |
| TaskController.InsertNewestFirst | server/controllers/taskController.js:62 | inserting into a newest-first list keeps it newest first and adds exactly that item |
| TaskController.SortNewestFirst | server/controllers/taskController.js:62 | `sort({createdAt: -1})`: the result is newest first, with tasks whose createdAt is null last, and a permutation of the input |
| TaskController.Views | server/controllers/taskController.js:63-76 | one item per selected id, in order; each item is the task stored under its own id, with that task's owner's email as creatorName and the owner's role |
| TaskController.ItemsOfIds | server/controllers/taskController.js:61-76 | the sorted items of the selected ids are newest first, each is its task enriched, each selected id appears, and ids are distinct |
| TaskController.ListingExact | server/controllers/taskController.js:55-83 | getTasks is 500 exactly when a visible task in the window has an unknown owner; otherwise 200 with every visible task in the window exactly once, enriched, newest first |
| TaskController.ListingFailsExactly | server/controllers/taskController.js:63-81 | the 500 branch is taken exactly when a selected task's owner is missing |
| TaskController.TextField | server/controllers/taskController.js:91-92 | a String path of the new document is the text the String cast gives, and missing exactly when the value is absent, null, or refused by the cast |
| TaskController.CreationDueDate | server/controllers/taskController.js:93 | `dueDate \|\| null`: every falsy value, 0 included, becomes no due date; a truthy value is the date the Date cast gives, and fails exactly when that cast fails; a truthy number is a due date within ±8.64e15 ms; a boolean fails |
| TaskController.CreateWithDueDateExact | server/controllers/taskController.js:86-101 | for any cast due date: 201 exactly when the title and description cast to non-empty text and the due date cast succeeded; the new task is the requester's, starts 'not-started', carries the cast fields and the current time, and takes a fresh id; on a 500 nothing changes |
| TaskController.CreateExact | server/controllers/taskController.js:86-101 | createTask is 201 exactly when the title and description cast to non-empty text and the due date casts; the new task is the requester's whatever the body says, starts 'not-started', carries the cast title, description and due date and the current time, and takes a fresh id; on a 500 nothing changes |
| TaskController.FalsyDueDateStoredAsNull | server/controllers/taskController.js:93 | a body whose due date is absent, null, '' or 0 creates a task without a due date |
| TaskController.PatchText | server/controllers/taskController.js:123-127 | under `$set` with runValidators, an absent text field is kept; a present one is set exactly when the String cast gives non-empty text, and to that text; null, '', an array or an object without a string `_id` fail |
| TaskController.PatchDate | server/controllers/taskController.js:123-127 | a Date path (dueDate, createdAt) under `$set`: an absent value is kept, null and '' clear it, a number in range sets it, and a value fails exactly when the cast fails |
| TaskController.PatchProgress | server/controllers/taskController.js:123-127 | an absent progress is kept; null clears it, as the enum validator passes null; any other value is set exactly when its String cast is an enum spelling, and to that value |
| TaskController.PatchOwner | server/controllers/taskController.js:123-127 | the userId path under `$set`: an absent value is kept; a present one is set exactly when it is a string that casts to an ObjectId, and to that id |
| TaskController.UpdateExact | server/controllers/taskController.js:104-132 | updateTask ends as 200, 403, 404 or 500; only 200 changes the store; a 200 means the requester owned the task and changes only that task, and of it exactly the schema paths the body names (userId and createdAt included), each to the body's value as that path's cast gives it (a null progress clears it) |
| TaskController.UnnamedPathsKept | server/controllers/taskController.js:123-127 | a path the body does not name keeps its value |
| TaskController.UpdateKeepsUnnamedPaths | server/controllers/taskController.js:104-132 | an update whose body names neither userId nor createdAt keeps both |
| TaskController.PatchAsSupplied | server/controllers/taskController.js:123-127 | a patch sets each schema path the body names (owner, title, description, due date, progress, creation time) to the body's value as the path's cast gives it and keeps every other, and a saveable task stays saveable |
| TaskController.DeleteExact | server/controllers/taskController.js:135-156 | deleteTask ends as 204, 403, 404 or 500; only 204 changes the store; a 204 means the requester owns the task, exactly that task is removed, and deleting it again is 404 |
| TaskController.NotFoundBeforeForbidden | server/controllers/taskController.js:109-120 | a missing task is 404 for update and delete, with the store unchanged, before ownership is looked at |
| TaskController.NonOwnerForbidden | server/controllers/taskController.js:116-120 | a requester who is not the owner, of any role, gets 403 and changes nothing, for update and delete |
| TaskController.TeacherSeesButCannotChange | server/controllers/taskController.js:15-25 | a teacher's listing includes their student's task, yet updating or deleting it is 403 |
| TaskController.TaskStore.Create | server/controllers/taskController.js:86-101 | the method's response and new store are those of CreateOutcome, and the store invariant holds |
| TaskController.TaskStore.Update | server/controllers/taskController.js:104-132 | the method's response and new store are those of UpdateOutcome, and the store invariant holds |
| TaskController.TaskStore.Delete | server/controllers/taskController.js:135-156 | the method's response and new store are those of DeleteOutcome, and the store invariant holds |
| TaskController.TaskStore.constructor | server/models/Task.js:5-32 | the collection starts empty and valid |
| AuthController.StoredTeacherId | server/controllers/authController.js:22 | only a student's user document gets a teacherId: the cast of the string given |
| AuthController.SignupExact | server/controllers/authController.js:7-31 | a student without a teacherId is 400 before any lookup; otherwise a string email that is taken is 409, whatever the password; a 201 appends one user holding the password's hash and the role the String cast gives, with a teacherId exactly when the body's role is the string 'student'; every other outcome leaves the table unchanged; emails stay unique |
| AuthController.TakenEmailConflicts | server/controllers/authController.js:15-19 | an email already registered is 409 'Email already exists' with the table unchanged, whatever the password, once the student check passes |
| AuthController.WellFormedSignup | server/controllers/authController.js:7-31 | for a well-shaped body the outcome turns on the email: 409 when it is taken, 201 when it is fresh and the hash and teacherId cast succeed |
| AuthController.UserTable.Signup | server/controllers/authController.js:7-31 | the method's response and new table are those of SignupOutcome, and emails stay unique |
| AuthController.UserTable.constructor | server/models/User.js:2-7 | the table starts empty |
| AuthController.TeacherIdToSend | server/controllers/authController.js:51 | a teacher is sent their own id, a student their stored teacherId |
| AuthController.LoginFailuresIdentical | server/controllers/authController.js:37-45 | an unknown email and a wrong password get the same 401 'Invalid credentials.' |
| AuthController.LoginSucceeds | server/controllers/authController.js:34-64 | login ends as 200, 401 or 500; it is 200 exactly when the email is found and the password matches; the token signs exactly the id and role for '1d', and the teacherId is shaped by role |
| AuthRoutes.InvalidSignupRejected | server/routes/authRoutes.js:6 | a body the schema rejects gets Joi's 400, never the 409 or the controller's own 400, and the table is unchanged |
| AuthRoutes.AcceptedSignupOutcome | server/routes/authRoutes.js:6 | behind the schema the student check never fires: 409 exactly when the email is taken, otherwise 201 when the hash and cast succeed |
| AuthRoutes.NoTokenNeeded | server/routes/authRoutes.js:6-7 | neither auth route depends on the Authorization header |
| AuthRoutes.LoginUnvalidated | server/routes/authRoutes.js:7 | login runs no schema; it is the controller itself |
| TaskRoutes.UnauthenticatedRejectedFirst | server/routes/taskRoutes.js:9 | a request that fails authentication gets the 401 on all four routes and changes nothing |
| TaskRoutes.InvalidCreationRejected | server/routes/taskRoutes.js:15 | an authenticated POST with a body the schema rejects is 400 and creates nothing |
| TaskRoutes.InvalidUpdateRejectedBeforeLookup | server/routes/taskRoutes.js:18 | an authenticated PUT with a body the schema rejects is 400 whatever the id, so the 400 comes before the 404 and 403, and nothing changes |
| TaskRoutes.GetAndDeleteUnvalidated | server/routes/taskRoutes.js:12-21 | once authenticated, GET and DELETE are the controller, and the date filter passes unchecked |
| TaskRoutes.AcceptedCreationSucceeds | server/routes/taskRoutes.js:15 | an authenticated POST body the schema accepts is 201 exactly when its due date is not a string that Joi and the Date cast read differently and the cast refuses; the task is the token user's; otherwise 500 and nothing changes |
| TaskRoutes.GoodFieldsCreate | server/controllers/taskController.js:88-97 | fields the schema accepts make createTask 201 exactly when the Date cast does not refuse a due date Joi read differently; the task is the requester's; otherwise 500 and nothing changes |
| TaskRoutes.AcceptedOwnUpdateSucceeds | server/routes/taskRoutes.js:18 | an accepted PUT body on the requester's own task is 200 exactly when its due date is not a string that Joi and the Date cast read differently and the cast refuses; otherwise 500 and nothing changes |
| TaskRoutes.GoodFieldsPatch | server/controllers/taskController.js:123-127 | fields the schema accepts pass the `$set` casts and validators exactly when the Date cast does not refuse a due date Joi read differently |
| TaskRoutes.AcceptedUpdatePatches | server/routes/taskRoutes.js:18 | a body the update schema accepts reads as a patch exactly when the Date cast does not refuse a due date Joi read differently |
| TaskRoutes.AcceptedDateCasts | server/validation/taskValidation.js:8 | a due date the schema accepts is one the Date cast accepts, unless it is a string the two read differently and the cast refuses |
| TaskRoutes.RefusedDateFailsCreation | server/controllers/taskController.js:93 | such a refused string is non-empty, so `\|\| null` keeps it and the creation due date fails |
| TaskRoutes.DigitDueDateReadings | server/validation/taskValidation.js:8 | Joi reads "13" as 13 ms, while `Number("13")` is too close to the epoch for the Date cast to read it as a number |
| TaskRoutes.DigitDueDateBodyAccepted | server/validation/taskValidation.js:5-10 | the creation schema accepts `{title: 't', description: 'd', dueDate: '13'}` |
| TaskRoutes.DigitDueDateRefused | server/models/Task.js:19-22 | when the parser refuses the text "13", the Date cast refuses the string the schema accepted |
| TaskRoutes.DigitDueDateFailsAfterValidation | server/controllers/taskController.js:86-101 | as written: that body passes the schema, and createTask then answers 500 and stores nothing |
| TaskRoutes.IntendedCreationDueDate | server/controllers/taskController.js:93 | corrected: the due date stored is Joi's reading, with `\|\| null` kept: a falsy value is no date, a truthy one the date Joi read |
| TaskRoutes.IntendedCreationSucceeds | server/routes/taskRoutes.js:15 | corrected: every authenticated body the creation schema accepts is 201, for the token's user, due when Joi read |
| TaskRoutes.DigitDueDateJoiReading | server/validation/taskValidation.js:8 | Joi's reading of "13" is the date 13 ms after the epoch |
| TaskRoutes.IntendedDigitDueDateCreated | server/controllers/taskController.js:86-101 | corrected: the body with the due date "13" creates a task due 13 ms after the epoch |
| TaskRoutes.AcceptedUpdateKeepsOwner | server/routes/taskRoutes.js:18 | a PUT answered 200 keeps the task's owner and creation time, because the schema refuses a body naming either |
| Dashboard.DateFilterQuery | client/src/pages/Dashboard.js:32 | 'none' is sent as '', any other value as it is |
| Dashboard.SentDateFilter | client/src/pages/Dashboard.js:32 | the server receives no filter exactly for 'none' and '', and the value itself otherwise |
| Dashboard.FetchErrorText | client/src/pages/Dashboard.js:35 | the error shown is the message, or 'Failed to load tasks.' when it is empty |
| Dashboard.FilterByProgressExact | client/src/pages/Dashboard.js:62-64 | the progress filter keeps exactly the tasks with that progress, in order; 'all' keeps the list |
| Dashboard.RemoveByIdExact | client/src/pages/Dashboard.js:57-59 | removal drops every task with that id and keeps every other one, with its multiplicity and order |
| Dashboard.DateOptionsReachServer | client/src/pages/Dashboard.js:11-32 | 'none' reaches the server as no date clause; the other two options arrive as the names the controller knows |
| Dashboard.AuthFailuresMentionToken | client/src/pages/Dashboard.js:36-39 | both 401 messages of the auth middleware contain 'token', so a rejected token logs the user out |
| Dashboard.DashboardPage.constructor | client/src/pages/Dashboard.js:20-24 | no tasks, loading, filters 'all' and 'none' |
| Dashboard.DashboardPage.FetchTasks | client/src/pages/Dashboard.js:27-43 | sends the mapped date filter; success replaces the tasks and clears the error; failure keeps the tasks, sets the error, and logs out exactly when the message contains 'token'; loading ends false |
| Dashboard.DashboardPage.HandleTaskDelete | client/src/pages/Dashboard.js:57-59 | the tasks become the list with that id removed, and nothing else changes |
| TaskCard.ProgressChange | client/src/components/TaskCard.js:16-28 | a call is made exactly when the user owns the task, and it patches the progress alone |
| TaskCard.EditDiffExact | client/src/components/TaskCard.js:51-53 | the edit diff names a field exactly when it changed, with its new value, names nothing else, and is empty exactly when nothing changed |
| TaskCard.EditBody | client/src/components/TaskCard.js:51-59 | the JSON sent holds the title and description exactly when they changed |
| TaskCard.EditAcceptedExactly | client/src/components/TaskCard.js:48-66 | the server's update schema accepts a saved edit exactly when something changed, a changed title has 1 to 255 UTF-16 code units and a changed description is non-empty |
| TaskCard.EditBodyShape | client/src/components/TaskCard.js:51-59 | an edit body names only the task keys, is non-empty exactly when something changed, and its fields pass exactly when a changed title has 1 to 255 code units and a changed description is non-empty |
| TaskCard.ProgressChangeAccepted | client/src/components/TaskCard.js:108-110 | a progress picked from the card's menu passes the update schema |
| TaskCard.CardState.constructor | client/src/components/TaskCard.js:8-11 | not editing, not deleting, the edit fields holding the task's text |
| TaskCard.CardState.HandleDelete | client/src/components/TaskCard.js:30-46 | a non-owner or a refusal makes no call; a confirmed owner's delete is sent, the list is told exactly when it succeeded, and isDeleting ends false |
| TaskCard.CardState.HandleSaveEdit | client/src/components/TaskCard.js:48-66 | nothing for a non-owner; no change means no call and edit mode closes; otherwise the diff is sent, and edit mode closes only on success |
| TaskForm.TaskPayload | client/src/components/TaskForm.js:21-26 | the payload holds the title and description, and the ISO dueDate exactly when a date was picked |
| TaskForm.PayloadAccepted | client/src/components/TaskForm.js:21-26 | a payload the form sends passes the creation schema whenever the title fits 255 UTF-16 code units and the ISO date text parses |
| TaskForm.IsoTextIsDateText | client/src/components/TaskForm.js:25 | ISO text, which has a 'T', is neither white space nor a digit string, so Joi hands it to the date parser |
| TaskForm.FormState.constructor | client/src/components/TaskForm.js:6-9 | empty fields, no error |
| TaskForm.FormState.HandleSubmit | client/src/components/TaskForm.js:11-37 | an empty title or description sets the error and sends nothing; otherwise the payload is sent; success resets the fields and notifies; failure keeps them and shows the message or 'Failed to create task.' |
| SignupPage.SignupPayload | client/src/pages/Signup.js:27-32 | the payload holds email, password and role, and teacherId exactly for a student |
| SignupPage.PayloadMeetsTeacherRule | client/src/pages/Signup.js:22-32 | whatever the page sends meets the server's teacherId rule |
| SignupPage.SignupForm.constructor | client/src/pages/Signup.js:7-12 | empty fields, role 'student', no error or message |
| SignupPage.SignupForm.HandleSubmit | client/src/pages/Signup.js:16-42 | a student without a teacherId gets the error and nothing is sent; otherwise the payload is sent, and success sets the message while failure sets the result's message or 'Signup failed.'; the fields are kept |
| AuthContext.RestoredUser | client/src/context/AuthContext.js:20-22 | a user is restored exactly when token, role and userId are all non-empty, with the stored values |
| AuthContext.StoreSession | client/src/context/AuthContext.js:31-34 | login writes token, role and userId, and teacherId only when it is non-empty; other keys are untouched |
| AuthContext.ClearSession | client/src/context/AuthContext.js:56-59 | logout removes the four keys and nothing else |
| AuthContext.SessionRoundTrip | client/src/context/AuthContext.js:20-34 | a session written by login is restored on the next mount |
| AuthContext.LogoutForgetsSession | client/src/context/AuthContext.js:54-61 | after logout nothing is restored and no session key remains |
| AuthContext.AuthProvider.constructor | client/src/context/AuthContext.js:10-11 | no user, loading |
| AuthContext.AuthProvider.Restore | client/src/context/AuthContext.js:14-24 | the restored user, if any, is set, storage is untouched, and loading ends false whatever was stored |
| AuthContext.AuthProvider.Login | client/src/context/AuthContext.js:26-42 | success stores the session and sets the user; failure returns the message and changes nothing |
| AuthContext.AuthProvider.Logout | client/src/context/AuthContext.js:54-61 | storage loses the four keys and the user becomes null |

## Left out

- MongoDB and mongoose are a map from id to task and a sequence of users, with a user's id being its position in the sequence. Connection and server start-up are not modelled, and populate is modelled only by its enrichment result.
- The server reads `findById` and then writes with `findByIdAndUpdate` or `findByIdAndDelete`. The race between the read and the write is a concurrency matter and is not modelled.
- bcrypt, `jwt.sign` and `jwt.verify` are uninterpreted function parameters, and so are their secrets and the secret fallbacks. Joi's email syntax, date parsing and the ObjectId cast are also parameters.
- `parseDate` is `new Date(text)` for date text, shared by Joi and mongoose. Joi's digit-string reading and mongoose's numeric-string rule are modelled around it.
- `Date`, local midnight and DST are not modelled. `today` is a parameter, and the week is exactly seven days of milliseconds.
- TaskController.SortNewestFirst: tasks with equal createdAt come out in an order the model chooses. MongoDB does not fix that order.
- Numbers are exact. JavaScript rounds a decimal string to the nearest double (in `parseFloat`, in `Number(s)`) and the model does not. So a digit string with more than 15 significant digits can round differently.
- JsText.IntToString: JavaScript writes a number of 1e21 or more in exponent form. The model always writes plain digits.
- JsText.ToJsString: an object value nested in an array is '[object Object]', or a throw when it has its own `toString` key. An object with a repeated key is not modelled, since a `Body` has distinct keys.
- The enum validator is that of mongoose 6 and later, which passes null. So TaskController.PatchProgress lets `null` clear the progress. The source pins no mongoose version.
- AuthController.StoredTeacherId: a teacherId that is not a string (an object with an `_id`, say) is treated as a failed cast.
- AuthController.SignupOutcome: an email that is not a string (an object holding a query operator, say) is taken to find no user, so the signup ends in 500. MongoDB would run it as a query.
- TaskController.PatchOwner: a userId that is not a string (an object with an `_id`, say) is treated as a failed cast.
- The `$set` keys `_id` and `__v` are ignored like keys outside the schema. No body the update schema accepts carries them.
- Common.Value: JSON numbers are integers, so a fractional number cannot be written down. For example, `dueDate: 1.5` passes Joi and mongoose casts it to 1 ms; the model cannot express that body.
- Common.Body: a request body is a JSON object. `express.json()` also delivers a top-level array. The signup, create and update routes answer it with 400 `"value" must be of type object`, and login reads an undefined email and answers 401. Array bodies are not modelled.
- Strings are sequences of Unicode scalar values, so a JSON string holding a lone UTF-16 surrogate cannot be written down. Lengths count a character outside the Basic Multilingual Plane as two code units, as JavaScript does.
- AuthController.Login: an email that is not a string finds no one.
- The wording of library exceptions (`err.message` from mongoose, bcrypt or jsonwebtoken) is not modelled. Such a response is `LibraryFailure`.
- A request whose query string repeats `dateFilter` (an array value) is not modelled.
- TaskForm: `toISOString` throwing on an invalid date is not modelled.
- console logging, `alert`, `window.confirm` (its answer is a parameter), `navigate`, the delayed navigation after signup, JSX rendering and React's scheduling of state updates are not modelled.
- The TaskCard "Edit" button only sets `isEditing`, and has no method of its own.
- AuthContext.signup only passes the signup call's result on. It is the outcome parameter of SignupPage.SignupForm.HandleSubmit.
- client/src/api/taskService.js, client/src/api/authService.js, client/src/App.js and server/server.js are not part of this model. They are network wrappers, routing and start-up.
- TaskCard lets the user save an edit that empties the title. The server refuses it, as EditAcceptedExactly states. The model records this behaviour as it is.

## Findings

| source | as written | input that shows it | evidently intended | confidence | as-written member | corrected member |
|---|---|---|---|---|---|---|
| server/controllers/taskController.js:88-93 | createTask ignores the value Joi validated and casts `req.body.dueDate` again. Joi's `date()` reads a digit string as milliseconds. The Date cast reads it so only beyond 275761 or below -271820, and hands "13" to the date parser. | POST `{"title":"t","description":"d","dueDate":"13"}`, with the parser refusing "13": the schema accepts the body, and createTask answers 500. PUT `{"dueDate":"13"}` on one's own task fails the same way. | a body the schema accepts is created, due when Joi read | not executed | TaskRoutes.DigitDueDateFailsAfterValidation | TaskRoutes.IntendedCreationSucceeds |
