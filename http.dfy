/** What a route handler returns: a JSON body with status 200, or an error
    status with the `{error}` message the handler writes. */
module Http {

  datatype Response<T> = Ok(body: T) | Error(status: nat, message: string)

  const BadRequest: nat := 400
  const NotFound: nat := 404
  const ServerError: nat := 500

  /** A request field as the handlers test it: present and truthy. Absent
      (`undefined`) is `Missing`; the empty string is falsy. */
  datatype Field = Missing | Str(s: string) {
    predicate Truthy() { Str? && s != "" }
  }

  /** A JSON value read by `completed === true`. */
  datatype Json = JNull | JBool(b: bool) | JNumber(n: int) | JString(str: string)

  /** A request field expected to hold an array of ids. */
  datatype ArrayField = MissingArray | NotAnArray | Array(items: seq<string>)
}
