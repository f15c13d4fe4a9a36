/** Shared vocabulary of the three controllers: optional values, the HTTP
    statuses they answer with, the shape of a reply, and the identity that
    the request middleware attaches to every request. */
module Common {

  datatype Option<+T> = None | Some(value: T)

  /** The statuses the controllers answer with: 200, 201, 400, 401, 403
      and 404 (the generic 500 branch is not modelled: the in-memory store
      never fails). */
  datatype Status = Ok | Created | BadRequest | Unauthorized | Forbidden | NotFound

  /** A handler's reply: a status with a payload, or a refusal whose body is
      only a message (the message text is not modelled). */
  datatype Outcome<+T> = Done(status: Status, value: T) | Refused(status: Status)

  /** The role of the identity the development middleware attaches to every
      request (user 1 with role "ADMIN"); the user id only matters as being
      present. */
  const StubRole: string := "ADMIN"
}
