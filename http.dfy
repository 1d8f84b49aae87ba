/**
 * The JSON replies of the handlers: `{success, message, ...payload}` with an
 * HTTP status. A reply with `success: true` carries its payload; one with
 * `success: false` carries only the message. A reply without a `message`
 * field has the empty message, which JavaScript's `||` treats the same way.
 */
module Http {

  const StatusOk: nat := 200
  const StatusCreated: nat := 201
  const StatusBadRequest: nat := 400
  const StatusUnauthorized: nat := 401
  const StatusForbidden: nat := 403
  const StatusNotFound: nat := 404
  const StatusServerError: nat := 500

  datatype Reply<+T> =
    | Ok(status: nat, message: string, value: T)
    | Err(status: nat, message: string)
}
