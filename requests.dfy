/** The shape of what reaches a request handler: JSON scalars, the task
    body of POST and PUT /tasks, and the authenticated actor. */
module Requests {
  import opened Wrappers

  /** The text form of a MongoDB ObjectId. */
  type Id = string

  /** One field of a JSON body: the key left out (undefined), an explicit
      null, or a string. */
  datatype Value = Absent | Null | Str(s: string)

  /** JavaScript truthiness of a field: a non-empty string. */
  predicate Truthy(v: Value)
  {
    v.Str? && v.s != ""
  }

  /** A date field. DateText carries the text sent and the instant the date
      parser makes of it (None: an Invalid Date); parsing is outside the
      model, so its outcome travels with the value. */
  datatype DateValue = NoDate | NullDate | DateText(raw: string, parsed: Option<int>)

  predicate DateTruthy(d: DateValue)
  {
    d.DateText? && d.raw != ""
  }

  datatype TaskBody = TaskBody(
    title: Value,
    description: Value,
    dueDate: DateValue,
    category: Value,
    priority: Value,
    status: Value,
    assignedTo: Value)

  /** The authenticated user issuing a request: `req.user._id` and
      `req.user.role`. */
  datatype Actor = Actor(id: Id, role: string)
}
