/** The rows of the `users` and `tasks` tables and the invariants that keep them keyed. */
module Rows {

  datatype User = User(id: string, name: string, email: string, password: string)

  /** `created_at` is a timestamp text; `status` is a number, 0 for an open
      task and 1 for a finished one. */
  datatype Task = Task(id: string, title: string, description: string, createdAt: string, status: real)

  type Users = map<string, User>
  type Tasks = map<string, Task>

  /** Some row of `users` already has this email. */
  predicate EmailInUse(users: Users, email: string)
  {
    exists k | k in users :: users[k].email == email
  }

  /** Every user is stored under its own id and no two users share an email. */
  ghost predicate UsersValid(users: Users)
  {
    && (forall k | k in users :: users[k].id == k)
    && (forall k, k' | k in users && k' in users && k != k' :: users[k].email != users[k'].email)
  }

  /** Every task is stored under its own id. */
  ghost predicate TasksValid(tasks: Tasks)
  {
    forall k | k in tasks :: tasks[k].id == k
  }

  /** `s[0] === c` in JavaScript: the empty string has no first character. */
  predicate StartsWith(s: string, c: char)
  {
    |s| > 0 && s[0] == c
  }
}
