/** The responses the server sends: a status code and one of the JSON bodies
    the controllers and middleware build. */
module Http {
  import opened Common
  import opened TaskModel
  import opened UserModel

  /** One item of the array `GET /tasks` returns: the task, its id, and its
      owner's email (as `creatorName`) and role. */
  datatype TaskView = TaskView(
    id: Id,
    userId: Id,
    title: string,
    description: string,
    dueDate: Option<int>,
    progress: Option<Progress>,
    createdAt: Option<int>,
    creatorName: string,
    role: Role)

  datatype ResponseBody =
    /** `{success: false, message}` with a message written in the application. */
    | Failure(message: string)
    /** `{success: false, message: err.message}` for an exception raised by a
        library (mongoose, bcrypt, jsonwebtoken), whose wording is not modelled. */
    | LibraryFailure
    /** `{success: true, message}`. */
    | Done(message: string)
    /** `{success: true, task, message}`. */
    | TaskDone(id: Id, task: Task, message: string)
    /** The bare array sent by `GET /tasks`. */
    | TaskList(items: seq<TaskView>)
    /** `{success: true, token, role, userId, teacherId}`; `teacherId` is
        omitted from the JSON when `None`. */
    | LoginDone(token: string, role: Role, userId: Id, teacherId: Option<Id>)
    /** The empty body of a 204. */
    | NoContent

  datatype Response = Response(status: nat, body: ResponseBody)

  /** The `success` flag of a body (a task list and a 204 carry none). */
  predicate Succeeded(b: ResponseBody)
  {
    b.Done? || b.TaskDone? || b.LoginDone?
  }
}
