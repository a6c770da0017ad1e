/**
 * What a failing handler leaves behind: the status it set explicitly with
 * `res.status(..)` before throwing (or none) and the error it threw.
 */
module Errors {
  import opened Wrappers

  /** The errors the handlers throw themselves, one per `throw new Error`. */
  datatype Reason =
    | IdNotString | IdTooShort | NameNotString | NameTooShort | EmailNotString
    | PasswordMismatch | IdTaken | EmailTaken | UserIdPrefix | IdNotFound
    | TitleNotString | TitleTooShort | DescriptionNotString | CreatedAtNotString
    | StatusNotNumber | TaskIdPrefix

  /** A thrown error: one of the handlers' own, the TypeError the runtime
      raises for `password.match` on a non-string, or the database refusing a
      second row with the same primary key. */
  datatype Error = Thrown(reason: Reason) | PasswordTypeError | DuplicateKey

  datatype Rejection = Rejection(status: Option<int>, error: Error)

  /** The usual failure: `res.status(400)` followed by a throw. */
  function BadRequest(r: Reason): Rejection
  {
    Rejection(Some(400), Thrown(r))
  }

  /** A handler's reply: a success status with its message and payload, or
      the failure that the catch block turns into a plain-text response. */
  datatype Reply<+T> = Ok(status: int, message: string, body: T) | Fail(rejection: Rejection)

  /** The request field each of the handlers' own errors is about. */
  function Field(r: Reason): string
  {
    match r
    case IdNotString | IdTooShort | IdTaken | UserIdPrefix | IdNotFound | TaskIdPrefix => "id"
    case NameNotString | NameTooShort => "name"
    case EmailNotString | EmailTaken => "email"
    case PasswordMismatch => "password"
    case TitleNotString | TitleTooShort => "title"
    case DescriptionNotString => "Description"
    case CreatedAtNotString => "createdAt"
    case StatusNotNumber => "status"
  }

  function Quoted(f: string): string
  {
    "'" + f + "'"
  }

  /** The text each of the handlers' own errors carries; it opens with the
      quoted name of the field at fault. */
  function Message(r: Reason): (m: string)
    ensures Quoted(Field(r)) <= m
  {
    match r
    case IdNotString => Quoted("id") + " deve ser string"
    case IdTooShort => Quoted("id") + " deve possuir pelo menos 4 caracteres"
    case NameNotString => Quoted("name") + " deve ser string"
    case NameTooShort => Quoted("name") + " deve possuir pelo menos 2 caracteres"
    case EmailNotString => Quoted("email") + " deve ser string"
    case PasswordMismatch =>
      Quoted("password") + " deve possuir entre 8 e 12 caracteres, com letras maiúsculas e minúsculas e no mínimo um número e um caractere especial"
    case IdTaken => Quoted("id") + " já existe"
    case EmailTaken => Quoted("email") + " já existe"
    case UserIdPrefix => Quoted("id") + " deve iniciar com a letra 'f'"
    case IdNotFound => Quoted("id") + " não encontrado"
    case TitleNotString => Quoted("title") + " deve ser string"
    case TitleTooShort => Quoted("title") + " deve possuir pelo menos 4 caracteres"
    case DescriptionNotString => Quoted("Description") + " deve ser string"
    case CreatedAtNotString => Quoted("createdAt") + " deve ser string"
    case StatusNotNumber => Quoted("status") + " deve ser number(0 para tarefa imcompleta ou 1 para completa)"
    case TaskIdPrefix => Quoted("id") + " deve iniciar com a letra 't'"
  }
}
