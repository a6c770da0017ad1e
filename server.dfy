/**
 * The service itself: the `users` and `tasks` tables as state, one method per
 * route. Each method runs the handler's steps in order (validate, look up,
 * reject or write, reply) and is proved to agree with its transition in Api.
 */
module Server {
  import opened Wrappers
  import opened Errors
  import opened Rows
  import opened Validation
  import Api

  class Service {
    var users: Users
    var tasks: Tasks

    ghost predicate Valid()
      reads this
    {
      UsersValid(users) && TasksValid(tasks)
    }

    constructor ()
      ensures Valid() && users == map[] && tasks == map[]
    {
      users := map[];
      tasks := map[];
    }

    /** GET /users?q= */
    method GetUsers(q: Option<string>) returns (status: int, rows: set<User>)
      ensures status == 200 && rows == Api.SearchUsers(users, q)
    {
      status := 200;
      if q.None? {
        rows := users.Values;
      } else {
        rows := set u | u in users.Values && Api.ContainsText(u.name, q.value);
      }
    }

    /** GET /tasks?q= */
    method GetTasks(q: Option<string>) returns (status: int, rows: set<Task>)
      ensures status == 200 && rows == Api.SearchTasks(tasks, q)
    {
      status := 200;
      if q.None? {
        rows := tasks.Values;
      } else {
        rows := set t | t in tasks.Values && (Api.ContainsText(t.title, q.value) || Api.ContainsText(t.description, q.value));
      }
    }

    /** POST /users */
    method CreateUser(b: UserBody) returns (r: Reply<User>)
      requires Valid()
      modifies this
      ensures Valid()
      ensures (r, users) == Api.CreateUser(old(users), b)
      ensures tasks == old(tasks)
    {
      var v := ValidateNewUser(b);
      if v.Failure? {
        return Fail(v.error);
      }
      var u := v.value;
      if u.id in users {
        return Fail(BadRequest(IdTaken));
      }
      if EmailInUse(users, u.email) {
        return Fail(BadRequest(EmailTaken));
      }
      users := users[u.id := u];
      r := Ok(201, Api.UserCreatedMessage, u);
    }

    /** DELETE /users/:id */
    method DeleteUser(id: string) returns (r: Reply<()>)
      requires Valid()
      modifies this
      ensures Valid()
      ensures (r, users) == Api.DeleteUser(old(users), id)
      ensures tasks == old(tasks)
    {
      if !StartsWith(id, 'f') {
        return Fail(Rejection(None, Thrown(UserIdPrefix)));
      }
      // The lookup's rows form an array, which `!` never finds falsy, so the
      // "not found" rejection is never taken.
      users := users - {id};
      r := Ok(200, Api.UserDeletedMessage, ());
    }

    /** POST /tasks; `createdAt` and `status` are the database's column defaults. */
    method CreateTask(b: TaskBody, createdAt: string, status: real) returns (r: Reply<Task>)
      requires Valid()
      modifies this
      ensures Valid()
      ensures (r, tasks) == Api.CreateTask(old(tasks), b, createdAt, status)
      ensures users == old(users)
    {
      var v := ValidateNewTask(b);
      if v.Failure? {
        return Fail(v.error);
      }
      var n := v.value;
      if n.id in tasks {
        return Fail(BadRequest(IdTaken));
      }
      tasks := tasks[n.id := Task(n.id, n.title, n.description, createdAt, status)];
      var inserted := tasks[n.id];
      r := Ok(201, Api.TaskCreatedMessage, inserted);
    }

    /** PUT /tasks/:id */
    method UpdateTask(pathId: string, b: PatchBody) returns (r: Reply<Task>)
      requires Valid()
      modifies this
      ensures Valid()
      ensures (r, tasks) == Api.UpdateTask(old(tasks), pathId, b)
      ensures users == old(users)
    {
      var v := ValidatePatch(b);
      if v.Failure? {
        return Fail(v.error);
      }
      if pathId !in tasks {
        return Fail(Rejection(Some(404), Thrown(IdNotFound)));
      }
      var merged := MergeTask(tasks[pathId], v.value);
      if merged.id != pathId && merged.id in tasks {
        return Fail(Rejection(None, DuplicateKey));
      }
      tasks := (tasks - {pathId})[merged.id := merged];
      r := Ok(200, Api.TaskEditedMessage, merged);
    }

    /** DELETE /tasks/:id */
    method DeleteTask(id: string) returns (r: Reply<()>)
      requires Valid()
      modifies this
      ensures Valid()
      ensures (r, tasks) == Api.DeleteTask(old(tasks), id)
      ensures users == old(users)
    {
      if !StartsWith(id, 't') {
        return Fail(BadRequest(TaskIdPrefix));
      }
      if id !in tasks {
        return Fail(Rejection(Some(404), Thrown(IdNotFound)));
      }
      tasks := tasks - {id};
      r := Ok(200, Api.TaskDeletedMessage, ());
    }
  }
}
