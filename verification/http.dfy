/** An HTTP response as the web frameworks build it: a status code and a payload. */
module Http {

  datatype Response<+P> = Response(status: nat, payload: P)

  const OK: nat := 200
  const CREATED: nat := 201
  const NO_CONTENT: nat := 204
  const BAD_REQUEST: nat := 400
  const NOT_FOUND: nat := 404
}
