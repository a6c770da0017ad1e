/**
 * The request-body validation of POST /users, POST /tasks and PUT /tasks/:id,
 * and the record PUT /tasks/:id writes back.
 */
module Validation {
  import opened Wrappers
  import opened Json
  import opened Errors
  import opened Checks
  import opened Rows
  import Password

  // ---------------------------------------------------------------- users

  /** The fields of a POST /users body. */
  datatype UserBody = UserBody(id: Value, name: Value, email: Value, password: Value)

  /** The steps of POST /users in the order the handler runs them. The
      password step has no `res.status(..)`, and `password.match` on a value
      that is not a string raises a TypeError before the pattern is tried. */
  function NewUserChecks(b: UserBody): seq<Check>
  {
    [ Check(b.id.Str?, BadRequest(IdNotString)),
      Check(b.id.Str? ==> |b.id.s| >= 4, BadRequest(IdTooShort)),
      Check(b.name.Str?, BadRequest(NameNotString)),
      Check(b.name.Str? ==> |b.name.s| >= 2, BadRequest(NameTooShort)),
      Check(b.email.Str?, BadRequest(EmailNotString)),
      Check(b.password.Str?, Rejection(None, PasswordTypeError)),
      Check(b.password.Str? ==> Password.Matches(b.password.s), Rejection(None, Thrown(PasswordMismatch))) ]
  }

  /** A body passes exactly when every field has its type and length and the
      password matches; the row it yields holds the body's own strings. */
  function ValidateNewUser(b: UserBody): (r: Result<User, Rejection>)
    ensures r.Success? <==>
      && b.id.Str? && |b.id.s| >= 4
      && b.name.Str? && |b.name.s| >= 2
      && b.email.Str?
      && b.password.Str? && Password.Matches(b.password.s)
    ensures r.Success? ==> r.value == User(b.id.s, b.name.s, b.email.s, b.password.s)
  {
    var cs := NewUserChecks(b);
    match RunChecks(cs)
    case Some(f) => Failure(f)
    case None =>
      assert cs[0].passes && cs[1].passes && cs[2].passes && cs[3].passes && cs[4].passes && cs[5].passes && cs[6].passes;
      Success(User(b.id.s, b.name.s, b.email.s, b.password.s))
  }

  /** POST /users stops at the first failing step: 400 for the five type and
      length steps, no status for the password. */
  lemma {:induction false} NewUserRejectionOrder(b: UserBody)
    ensures !b.id.Str? ==>
      ValidateNewUser(b) == Failure(BadRequest(IdNotString))
    ensures b.id.Str? && |b.id.s| < 4 ==>
      ValidateNewUser(b) == Failure(BadRequest(IdTooShort))
    ensures b.id.Str? && |b.id.s| >= 4 && !b.name.Str? ==>
      ValidateNewUser(b) == Failure(BadRequest(NameNotString))
    ensures b.id.Str? && |b.id.s| >= 4 && b.name.Str? && |b.name.s| < 2 ==>
      ValidateNewUser(b) == Failure(BadRequest(NameTooShort))
    ensures b.id.Str? && |b.id.s| >= 4 && b.name.Str? && |b.name.s| >= 2 && !b.email.Str? ==>
      ValidateNewUser(b) == Failure(BadRequest(EmailNotString))
    ensures b.id.Str? && |b.id.s| >= 4 && b.name.Str? && |b.name.s| >= 2 && b.email.Str? && !b.password.Str? ==>
      ValidateNewUser(b) == Failure(Rejection(None, PasswordTypeError))
    ensures b.id.Str? && |b.id.s| >= 4 && b.name.Str? && |b.name.s| >= 2 && b.email.Str? && b.password.Str?
            && !Password.Matches(b.password.s) ==>
      ValidateNewUser(b) == Failure(Rejection(None, Thrown(PasswordMismatch)))
  {
    var cs := NewUserChecks(b);
    if !b.id.Str? { RunChecksStopsAt(cs, 0); }
    else if |b.id.s| < 4 { RunChecksStopsAt(cs, 1); }
    else if !b.name.Str? { RunChecksStopsAt(cs, 2); }
    else if |b.name.s| < 2 { RunChecksStopsAt(cs, 3); }
    else if !b.email.Str? { RunChecksStopsAt(cs, 4); }
    else if !b.password.Str? { RunChecksStopsAt(cs, 5); }
    else if !Password.Matches(b.password.s) { RunChecksStopsAt(cs, 6); }
  }

  // ---------------------------------------------------------------- tasks

  /** The fields of a POST /tasks body. */
  datatype TaskBody = TaskBody(id: Value, title: Value, description: Value)

  /** The columns POST /tasks inserts; the database fills in the others. */
  datatype NewTask = NewTask(id: string, title: string, description: string)

  function NewTaskChecks(b: TaskBody): seq<Check>
  {
    [ Check(b.id.Str?, BadRequest(IdNotString)),
      Check(b.id.Str? ==> |b.id.s| >= 4, BadRequest(IdTooShort)),
      Check(b.title.Str?, BadRequest(TitleNotString)),
      Check(b.title.Str? ==> |b.title.s| >= 4, BadRequest(TitleTooShort)),
      Check(b.description.Str?, BadRequest(DescriptionNotString)) ]
  }

  /** A body passes exactly when `id` and `title` are strings of at least 4
      characters and `description` is a string (of any length). */
  function ValidateNewTask(b: TaskBody): (r: Result<NewTask, Rejection>)
    ensures r.Success? <==>
      b.id.Str? && |b.id.s| >= 4 && b.title.Str? && |b.title.s| >= 4 && b.description.Str?
    ensures r.Success? ==> r.value == NewTask(b.id.s, b.title.s, b.description.s)
    ensures r.Failure? ==> r.error.status == Some(400)
  {
    var cs := NewTaskChecks(b);
    match RunChecks(cs)
    case Some(f) => Failure(f)
    case None =>
      assert cs[0].passes && cs[1].passes && cs[2].passes && cs[3].passes && cs[4].passes;
      Success(NewTask(b.id.s, b.title.s, b.description.s))
  }

  lemma {:induction false} NewTaskRejectionOrder(b: TaskBody)
    ensures !b.id.Str? ==>
      ValidateNewTask(b) == Failure(BadRequest(IdNotString))
    ensures b.id.Str? && |b.id.s| < 4 ==>
      ValidateNewTask(b) == Failure(BadRequest(IdTooShort))
    ensures b.id.Str? && |b.id.s| >= 4 && !b.title.Str? ==>
      ValidateNewTask(b) == Failure(BadRequest(TitleNotString))
    ensures b.id.Str? && |b.id.s| >= 4 && b.title.Str? && |b.title.s| < 4 ==>
      ValidateNewTask(b) == Failure(BadRequest(TitleTooShort))
    ensures b.id.Str? && |b.id.s| >= 4 && b.title.Str? && |b.title.s| >= 4 && !b.description.Str? ==>
      ValidateNewTask(b) == Failure(BadRequest(DescriptionNotString))
  {
    var cs := NewTaskChecks(b);
    if !b.id.Str? { RunChecksStopsAt(cs, 0); }
    else if |b.id.s| < 4 { RunChecksStopsAt(cs, 1); }
    else if !b.title.Str? { RunChecksStopsAt(cs, 2); }
    else if |b.title.s| < 4 { RunChecksStopsAt(cs, 3); }
    else if !b.description.Str? { RunChecksStopsAt(cs, 4); }
  }

  // ---------------------------------------------------------------- task update

  /** The fields of a PUT /tasks/:id body; every one of them may be absent. */
  datatype PatchBody = PatchBody(id: Value, title: Value, description: Value, createdAt: Value, status: Value)

  /** A body that passed validation: each field absent or of its type. */
  datatype TaskPatch = TaskPatch(
    id: Option<string>, title: Option<string>, description: Option<string>,
    createdAt: Option<string>, status: Option<Num>)

  /** Each step tests a field only when it is not `undefined`; `null` is
      present and is not a string. */
  function PatchChecks(b: PatchBody): seq<Check>
  {
    [ Check(b.id.Undefined? || b.id.Str?, BadRequest(IdNotString)),
      Check(b.id.Str? ==> |b.id.s| >= 4, BadRequest(IdTooShort)),
      Check(b.title.Undefined? || b.title.Str?, BadRequest(TitleNotString)),
      Check(b.title.Str? ==> |b.title.s| >= 4, BadRequest(TitleTooShort)),
      Check(b.description.Undefined? || b.description.Str?, BadRequest(DescriptionNotString)),
      Check(b.createdAt.Undefined? || b.createdAt.Str?, BadRequest(CreatedAtNotString)),
      Check(b.status.Undefined? || b.status.Number?, BadRequest(StatusNotNumber)) ]
  }

  function Supplied(v: Value): Option<string>
  {
    if v.Str? then Some(v.s) else None
  }

  /** The `id` and `title` a patch carries have at least 4 characters. */
  predicate PatchWellFormed(p: TaskPatch)
  {
    (p.id.Some? ==> |p.id.value| >= 4) && (p.title.Some? ==> |p.title.value| >= 4)
  }

  /** A body passes exactly when each field is absent or well typed, and the
      patch keeps what was supplied. */
  function ValidatePatch(b: PatchBody): (r: Result<TaskPatch, Rejection>)
    ensures r.Success? <==>
      && (b.id.Undefined? || (b.id.Str? && |b.id.s| >= 4))
      && (b.title.Undefined? || (b.title.Str? && |b.title.s| >= 4))
      && (b.description.Undefined? || b.description.Str?)
      && (b.createdAt.Undefined? || b.createdAt.Str?)
      && (b.status.Undefined? || b.status.Number?)
    ensures r.Success? ==> PatchWellFormed(r.value)
    ensures r.Success? ==>
      && r.value.id == Supplied(b.id) && r.value.title == Supplied(b.title)
      && r.value.description == Supplied(b.description) && r.value.createdAt == Supplied(b.createdAt)
      && r.value.status == (if b.status.Number? then Some(b.status.n) else None)
    ensures r.Failure? ==> r.error.status == Some(400)
  {
    var cs := PatchChecks(b);
    match RunChecks(cs)
    case Some(f) => Failure(f)
    case None =>
      assert cs[0].passes && cs[1].passes && cs[2].passes && cs[3].passes && cs[4].passes && cs[5].passes && cs[6].passes;
      Success(TaskPatch(Supplied(b.id), Supplied(b.title), Supplied(b.description), Supplied(b.createdAt),
                        if b.status.Number? then Some(b.status.n) else None))
  }

  lemma {:induction false} PatchRejectionOrder(b: PatchBody)
    ensures !(b.id.Undefined? || b.id.Str?) ==>
      ValidatePatch(b) == Failure(BadRequest(IdNotString))
    ensures b.id.Str? && |b.id.s| < 4 ==>
      ValidatePatch(b) == Failure(BadRequest(IdTooShort))
    ensures (b.id.Undefined? || (b.id.Str? && |b.id.s| >= 4)) && !(b.title.Undefined? || b.title.Str?) ==>
      ValidatePatch(b) == Failure(BadRequest(TitleNotString))
    ensures (b.id.Undefined? || (b.id.Str? && |b.id.s| >= 4)) && b.title.Str? && |b.title.s| < 4 ==>
      ValidatePatch(b) == Failure(BadRequest(TitleTooShort))
    ensures (b.id.Undefined? || (b.id.Str? && |b.id.s| >= 4)) && (b.title.Undefined? || (b.title.Str? && |b.title.s| >= 4))
            && !(b.description.Undefined? || b.description.Str?) ==>
      ValidatePatch(b) == Failure(BadRequest(DescriptionNotString))
    ensures (b.id.Undefined? || (b.id.Str? && |b.id.s| >= 4)) && (b.title.Undefined? || (b.title.Str? && |b.title.s| >= 4))
            && (b.description.Undefined? || b.description.Str?) && !(b.createdAt.Undefined? || b.createdAt.Str?) ==>
      ValidatePatch(b) == Failure(BadRequest(CreatedAtNotString))
    ensures (b.id.Undefined? || (b.id.Str? && |b.id.s| >= 4)) && (b.title.Undefined? || (b.title.Str? && |b.title.s| >= 4))
            && (b.description.Undefined? || b.description.Str?) && (b.createdAt.Undefined? || b.createdAt.Str?)
            && !(b.status.Undefined? || b.status.Number?) ==>
      ValidatePatch(b) == Failure(BadRequest(StatusNotNumber))
  {
    var cs := PatchChecks(b);
    if !(b.id.Undefined? || b.id.Str?) { RunChecksStopsAt(cs, 0); }
    else if b.id.Str? && |b.id.s| < 4 { RunChecksStopsAt(cs, 1); }
    else if !(b.title.Undefined? || b.title.Str?) { RunChecksStopsAt(cs, 2); }
    else if b.title.Str? && |b.title.s| < 4 { RunChecksStopsAt(cs, 3); }
    else if !(b.description.Undefined? || b.description.Str?) { RunChecksStopsAt(cs, 4); }
    else if !(b.createdAt.Undefined? || b.createdAt.Str?) { RunChecksStopsAt(cs, 5); }
    else if !(b.status.Undefined? || b.status.Number?) { RunChecksStopsAt(cs, 6); }
  }

  /** JavaScript's `v || fallback` where v is a string or `undefined`: the
      empty string is falsy, so it falls back too. */
  function OrElse(v: Option<string>, fallback: string): string
  {
    if v.Some? && v.value != "" then v.value else fallback
  }

  /** The record PUT /tasks/:id writes: `||` fallback for the four text
      fields, `isNaN(status) ? old : status` for the status. */
  function MergeTask(t: Task, p: TaskPatch): (m: Task)
    // every column is the old value or the one supplied, never anything else
    ensures m.id == t.id || Some(m.id) == p.id
    ensures m.title == t.title || Some(m.title) == p.title
    ensures m.description == t.description || Some(m.description) == p.description
    ensures m.createdAt == t.createdAt || Some(m.createdAt) == p.createdAt
    ensures m.status == t.status || p.status == Some(Finite(m.status))
    // a supplied text column is never blanked: an empty string falls back
    ensures t.id != "" ==> m.id != ""
    ensures t.title != "" ==> m.title != ""
    ensures t.description != "" ==> m.description != ""
    ensures t.createdAt != "" ==> m.createdAt != ""
  {
    Task(OrElse(p.id, t.id), OrElse(p.title, t.title), OrElse(p.description, t.description),
         OrElse(p.createdAt, t.createdAt),
         if p.status.Some? && p.status.value.Finite? then p.status.value.r else t.status)
  }

  /** Field by field: a validated `id` or `title` always replaces the old
      one, `description` and `createdAt` only when non-empty, `status` when
      it is a number other than NaN (so 0 is stored). */
  lemma MergeFields(t: Task, p: TaskPatch)
    requires PatchWellFormed(p)
    ensures MergeTask(t, p).id == (if p.id.Some? then p.id.value else t.id)
    ensures MergeTask(t, p).title == (if p.title.Some? then p.title.value else t.title)
    ensures p.description.None? || p.description == Some("") ==> MergeTask(t, p).description == t.description
    ensures p.description.Some? && p.description.value != "" ==> MergeTask(t, p).description == p.description.value
    ensures p.createdAt.None? || p.createdAt == Some("") ==> MergeTask(t, p).createdAt == t.createdAt
    ensures p.createdAt.Some? && p.createdAt.value != "" ==> MergeTask(t, p).createdAt == p.createdAt.value
    ensures p.status.None? || p.status == Some(NaN) ==> MergeTask(t, p).status == t.status
    ensures forall r: real :: p.status == Some(Finite(r)) ==> MergeTask(t, p).status == r
  {
  }

  /** Applying the same patch twice changes nothing more. */
  lemma MergeIdempotent(t: Task, p: TaskPatch)
    ensures MergeTask(MergeTask(t, p), p) == MergeTask(t, p)
  {
  }

  /** An empty body leaves the row as it was. */
  lemma MergeEmptyPatch(t: Task)
    ensures MergeTask(t, TaskPatch(None, None, None, None, None)) == t
  {
  }
}
