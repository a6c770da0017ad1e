/**
 * The seven handlers as transitions of the two tables: each takes the table
 * it reads (and the request), and gives the reply and the table afterwards.
 */
module Api {
  import opened Wrappers
  import opened Errors
  import opened Rows
  import opened Validation

  const UserCreatedMessage := "usuário criado com sucesso"
  const UserDeletedMessage := "User deletado com sucesso"
  const TaskCreatedMessage := "task criada com sucesso"
  const TaskEditedMessage := "task editada com sucesso"
  const TaskDeletedMessage := "task deletada com sucesso"

  /** `LIKE '%q%'` read as plain substring containment. */
  predicate ContainsText(s: string, q: string): (r: bool)
    ensures q <= s ==> r
    ensures r ==> |q| <= |s|
    ensures |q| == |s| ==> (r <==> q == s)
  {
    assert s[0..] == s;
    exists i | 0 <= i <= |s| :: q <= s[i..]
  }

  // ---------------------------------------------------------------- GET

  /** GET /users: every row without `q`, the rows whose name contains `q` with it. */
  function SearchUsers(users: Users, q: Option<string>): (rows: set<User>)
    ensures rows <= users.Values
    ensures q.None? ==> rows == users.Values
    ensures forall u | u in rows :: q.None? || ContainsText(u.name, q.value)
    ensures forall k | k in users && (q.None? || ContainsText(users[k].name, q.value)) :: users[k] in rows
  {
    set u | u in users.Values && (q.None? || ContainsText(u.name, q.value))
  }

  /** GET /tasks: every row without `q`, the rows whose title or description
      contains `q` with it. */
  function SearchTasks(tasks: Tasks, q: Option<string>): (rows: set<Task>)
    ensures rows <= tasks.Values
    ensures q.None? ==> rows == tasks.Values
    ensures forall t | t in rows :: q.None? || ContainsText(t.title, q.value) || ContainsText(t.description, q.value)
    ensures forall k | k in tasks && (q.None? || ContainsText(tasks[k].title, q.value) || ContainsText(tasks[k].description, q.value))
              :: tasks[k] in rows
  {
    set t | t in tasks.Values && (q.None? || ContainsText(t.title, q.value) || ContainsText(t.description, q.value))
  }

  // ---------------------------------------------------------------- POST /users

  function CreateUser(users: Users, b: UserBody): (res: (Reply<User>, Users))
    // validation first, and its rejection is the reply
    ensures ValidateNewUser(b).Failure? ==> res == (Fail(ValidateNewUser(b).error), users)
    // a taken id is reported before a taken email
    ensures ValidateNewUser(b).Success? && b.id.s in users ==> res == (Fail(BadRequest(IdTaken)), users)
    ensures ValidateNewUser(b).Success? && b.id.s !in users && EmailInUse(users, b.email.s) ==>
      res == (Fail(BadRequest(EmailTaken)), users)
    // success: 201 with the new row, and the table gains exactly that row
    ensures res.0.Ok? <==> ValidateNewUser(b).Success? && b.id.s !in users && !EmailInUse(users, b.email.s)
    ensures res.0.Ok? ==>
      && res.0.status == 201 && res.0.body == User(b.id.s, b.name.s, b.email.s, b.password.s)
      && res.1 == users[b.id.s := res.0.body] && |res.1| == |users| + 1
    ensures res.0.Fail? ==> res.1 == users
    // ids stay keys and emails stay unique
    ensures UsersValid(users) ==> UsersValid(res.1)
  {
    match ValidateNewUser(b)
    case Failure(f) => (Fail(f), users)
    case Success(u) =>
      if u.id in users then (Fail(BadRequest(IdTaken)), users)
      else if EmailInUse(users, u.email) then (Fail(BadRequest(EmailTaken)), users)
      else (Ok(201, UserCreatedMessage, u), users[u.id := u])
  }

  // ---------------------------------------------------------------- DELETE /users/:id

  /** The existence test of this handler negates the array of matching rows,
      and an array is never falsy, so it never rejects: any id starting with
      'f' gets 200, whether or not a row had it. */
  function DeleteUser(users: Users, id: string): (res: (Reply<()>, Users))
    ensures res.0.Ok? <==> StartsWith(id, 'f')
    ensures !StartsWith(id, 'f') ==> res == (Fail(Rejection(None, Thrown(UserIdPrefix))), users)
    ensures res.0.Ok? ==> res.0.status == 200 && res.1 == users - {id}
    ensures res.1.Keys == if res.0.Ok? then users.Keys - {id} else users.Keys
    ensures forall k | k in res.1 :: k in users && res.1[k] == users[k]
    ensures UsersValid(users) ==> UsersValid(res.1)
  {
    if !StartsWith(id, 'f') then (Fail(Rejection(None, Thrown(UserIdPrefix))), users)
    else (Ok(200, UserDeletedMessage, ()), users - {id})
  }

  // ---------------------------------------------------------------- POST /tasks

  /** `createdAt` and `status` are the defaults the database fills in; the
      reply carries the row as read back after the insert. */
  function CreateTask(tasks: Tasks, b: TaskBody, createdAt: string, status: real): (res: (Reply<Task>, Tasks))
    ensures ValidateNewTask(b).Failure? ==> res == (Fail(ValidateNewTask(b).error), tasks)
    ensures ValidateNewTask(b).Success? && b.id.s in tasks ==> res == (Fail(BadRequest(IdTaken)), tasks)
    ensures res.0.Ok? <==> ValidateNewTask(b).Success? && b.id.s !in tasks
    ensures res.0.Ok? ==>
      && res.0.status == 201 && res.0.body == Task(b.id.s, b.title.s, b.description.s, createdAt, status)
      && res.1 == tasks[b.id.s := res.0.body] && |res.1| == |tasks| + 1
    ensures res.0.Fail? ==> res.1 == tasks && res.0.rejection.status == Some(400)
    ensures TasksValid(tasks) ==> TasksValid(res.1)
  {
    match ValidateNewTask(b)
    case Failure(f) => (Fail(f), tasks)
    case Success(n) =>
      if n.id in tasks then (Fail(BadRequest(IdTaken)), tasks)
      else
        var after := tasks[n.id := Task(n.id, n.title, n.description, createdAt, status)];
        (Ok(201, TaskCreatedMessage, after[n.id]), after)
  }

  // ---------------------------------------------------------------- PUT /tasks/:id

  /** The table after the row under `pathId` is rewritten to `m`, whose id may differ. */
  function Rekeyed(tasks: Tasks, pathId: string, m: Task): Tasks
  {
    (tasks - {pathId})[m.id := m]
  }

  /** When the merged row takes a new id that another row already has, the
      database's primary key refuses the update. */
  function UpdateTask(tasks: Tasks, pathId: string, b: PatchBody): (res: (Reply<Task>, Tasks))
    ensures ValidatePatch(b).Failure? ==> res == (Fail(ValidatePatch(b).error), tasks)
    ensures ValidatePatch(b).Success? && pathId !in tasks ==>
      res == (Fail(Rejection(Some(404), Thrown(IdNotFound))), tasks)
    ensures res.0.Ok? ==>
      && ValidatePatch(b).Success? && pathId in tasks
      && var m := MergeTask(tasks[pathId], ValidatePatch(b).value);
         res.0 == Ok(200, TaskEditedMessage, m) && res.1 == Rekeyed(tasks, pathId, m)
    ensures ValidatePatch(b).Success? && pathId in tasks ==>
      var m := MergeTask(tasks[pathId], ValidatePatch(b).value);
      res.0.Ok? <==> m.id == pathId || m.id !in tasks
    ensures ValidatePatch(b).Success? && pathId in tasks &&
            (var m := MergeTask(tasks[pathId], ValidatePatch(b).value); m.id != pathId && m.id in tasks) ==>
      res == (Fail(Rejection(None, DuplicateKey)), tasks)
    ensures res.0.Fail? ==> res.1 == tasks
    // only the row under the path id changes, and the table keeps its size
    ensures forall k | k in tasks && k != pathId :: k in res.1 && res.1[k] == tasks[k]
    ensures |res.1| == |tasks|
    ensures TasksValid(tasks) ==> TasksValid(res.1)
  {
    match ValidatePatch(b)
    case Failure(f) => (Fail(f), tasks)
    case Success(p) =>
      if pathId !in tasks then (Fail(Rejection(Some(404), Thrown(IdNotFound))), tasks)
      else
        var m := MergeTask(tasks[pathId], p);
        if m.id != pathId && m.id in tasks then (Fail(Rejection(None, DuplicateKey)), tasks)
        else
          RekeyedSize(tasks, pathId, m);
          (Ok(200, TaskEditedMessage, m), Rekeyed(tasks, pathId, m))
  }

  lemma RekeyedSize(tasks: Tasks, pathId: string, m: Task)
    requires pathId in tasks && (m.id == pathId || m.id !in tasks)
    ensures |Rekeyed(tasks, pathId, m)| == |tasks|
  {
  }

  // ---------------------------------------------------------------- DELETE /tasks/:id

  function DeleteTask(tasks: Tasks, id: string): (res: (Reply<()>, Tasks))
    ensures !StartsWith(id, 't') ==> res == (Fail(BadRequest(TaskIdPrefix)), tasks)
    ensures StartsWith(id, 't') && id !in tasks ==> res == (Fail(Rejection(Some(404), Thrown(IdNotFound))), tasks)
    ensures res.0.Ok? <==> StartsWith(id, 't') && id in tasks
    ensures res.0.Ok? ==> res.0.status == 200 && res.1 == tasks - {id} && |res.1| == |tasks| - 1
    ensures forall k | k in tasks && k != id :: k in res.1 && res.1[k] == tasks[k]
    ensures TasksValid(tasks) ==> TasksValid(res.1)
  {
    if !StartsWith(id, 't') then (Fail(BadRequest(TaskIdPrefix)), tasks)
    else if id !in tasks then (Fail(Rejection(Some(404), Thrown(IdNotFound))), tasks)
    else
      assert (tasks - {id}).Keys == tasks.Keys - {id};
      (Ok(200, TaskDeletedMessage, ()), tasks - {id})
  }
}
