/** Properties that relate several handlers, stated on the transitions of Api. */
module Properties {
  import opened Wrappers
  import opened Json
  import opened Errors
  import opened Rows
  import opened Validation
  import opened Api

  /** A created user is listed afterwards, with no search term and when
      searching for its own name. */
  lemma CreatedUserIsListed(users: Users, b: UserBody)
    requires CreateUser(users, b).0.Ok?
    ensures var (r, after) := CreateUser(users, b);
      r.body in SearchUsers(after, None) && r.body in SearchUsers(after, Some(r.body.name))
  {
    var (r, after) := CreateUser(users, b);
    assert r.body.name <= r.body.name[0..];
    assert after[r.body.id] == r.body;
  }

  /** A created task is listed when searching for its title or its description. */
  lemma CreatedTaskIsListed(tasks: Tasks, b: TaskBody, createdAt: string, status: real)
    requires CreateTask(tasks, b, createdAt, status).0.Ok?
    ensures var (r, after) := CreateTask(tasks, b, createdAt, status);
      r.body in SearchTasks(after, Some(r.body.title)) && r.body in SearchTasks(after, Some(r.body.description))
  {
    var (r, after) := CreateTask(tasks, b, createdAt, status);
    assert r.body.title <= r.body.title[0..];
    assert r.body.description <= r.body.description[0..];
    assert after[r.body.id] == r.body;
  }

  /** Deleting a user just created (its id starting with 'f') restores the table. */
  lemma CreateThenDeleteUser(users: Users, b: UserBody)
    requires CreateUser(users, b).0.Ok? && StartsWith(b.id.s, 'f')
    ensures DeleteUser(CreateUser(users, b).1, b.id.s) == (Ok(200, UserDeletedMessage, ()), users)
  {
    var after := CreateUser(users, b).1;
    assert after - {b.id.s} == users;
  }

  /** Deleting a task just created (its id starting with 't') restores the table. */
  lemma CreateThenDeleteTask(tasks: Tasks, b: TaskBody, createdAt: string, status: real)
    requires CreateTask(tasks, b, createdAt, status).0.Ok? && StartsWith(b.id.s, 't')
    ensures DeleteTask(CreateTask(tasks, b, createdAt, status).1, b.id.s) == (Ok(200, TaskDeletedMessage, ()), tasks)
  {
    var after := CreateTask(tasks, b, createdAt, status).1;
    assert after - {b.id.s} == tasks;
  }

  /** A second DELETE /users of the same id still gets 200 and changes
      nothing; a second DELETE /tasks gets 404. */
  lemma DeleteTwice(users: Users, tasks: Tasks, id: string)
    ensures StartsWith(id, 'f') ==>
      DeleteUser(DeleteUser(users, id).1, id) == (Ok(200, UserDeletedMessage, ()), DeleteUser(users, id).1)
    ensures StartsWith(id, 't') ==>
      DeleteTask(DeleteTask(tasks, id).1, id) == (Fail(Rejection(Some(404), Thrown(IdNotFound))), DeleteTask(tasks, id).1)
  {
    if StartsWith(id, 'f') {
      var once := users - {id};
      assert once - {id} == once;
    }
  }

  /** A search term that is empty matches every row, as `LIKE '%%'` does. */
  lemma EmptySearchTermMatchesAll(users: Users, tasks: Tasks)
    ensures SearchUsers(users, Some("")) == SearchUsers(users, None)
    ensures SearchTasks(tasks, Some("")) == SearchTasks(tasks, None)
  {
    forall u | u in users.Values ensures u in SearchUsers(users, Some("")) {
      assert "" <= u.name[0..];
    }
    forall t | t in tasks.Values ensures t in SearchTasks(tasks, Some("")) {
      assert "" <= t.title[0..];
    }
  }

  /** PUT with only a title rewrites the title and keeps every other column,
      and the row stays under its id. */
  lemma UpdateOnlyTitle(tasks: Tasks, pathId: string, title: string)
    requires TasksValid(tasks) && pathId in tasks && |title| >= 4
    ensures var (r, after) := UpdateTask(tasks, pathId, PatchBody(Undefined, Str(title), Undefined, Undefined, Undefined));
      var t := tasks[pathId];
      r == Ok(200, TaskEditedMessage, t.(title := title)) && after == tasks[pathId := t.(title := title)]
  {
  }

  /** PUT with `status: 0` stores 0 and changes no other column: the status
      test is `isNaN`, not `||`. */
  lemma UpdateStatusZero(tasks: Tasks, pathId: string)
    requires TasksValid(tasks) && pathId in tasks
    ensures var (r, after) := UpdateTask(tasks, pathId, PatchBody(Undefined, Undefined, Undefined, Undefined, Number(Finite(0.0))));
      r.Ok? && r.body == tasks[pathId].(status := 0.0) && after == tasks[pathId := tasks[pathId].(status := 0.0)]
  {
    assert (tasks - {pathId})[pathId := tasks[pathId].(status := 0.0)] == tasks[pathId := tasks[pathId].(status := 0.0)];
  }

  /** PUT with an empty description keeps the old one, and the table is as
      it was: `""` is falsy. */
  lemma UpdateEmptyDescriptionKeepsOld(tasks: Tasks, pathId: string)
    requires TasksValid(tasks) && pathId in tasks
    ensures var (r, after) := UpdateTask(tasks, pathId, PatchBody(Undefined, Undefined, Str(""), Undefined, Undefined));
      r.Ok? && r.body == tasks[pathId] && after == tasks
  {
    assert (tasks - {pathId})[pathId := tasks[pathId]] == tasks;
  }

  /** PUT with an empty body replies with the row as it is and leaves the
      table unchanged. */
  lemma UpdateWithEmptyBody(tasks: Tasks, pathId: string)
    requires TasksValid(tasks) && pathId in tasks
    ensures UpdateTask(tasks, pathId, PatchBody(Undefined, Undefined, Undefined, Undefined, Undefined))
            == (Ok(200, TaskEditedMessage, tasks[pathId]), tasks)
  {
    MergeEmptyPatch(tasks[pathId]);
    assert (tasks - {pathId})[pathId := tasks[pathId]] == tasks;
  }
}
