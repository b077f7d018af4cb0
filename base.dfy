/** Values shared by every module: optional values, JavaScript truthiness of
    request fields, and the shape of an HTTP reply. */
module Base {

  datatype Option<+T> = None | Some(value: T)

  /** A request-body or header field as a handler sees it: `None` stands for
      `undefined` or `null`. JavaScript treats both, and the empty string, as
      falsy. */
  predicate Truthy(o: Option<string>) {
    o.Some? && o.value != ""
  }

  /** `field || ''` */
  function OrEmpty(o: Option<string>): (r: string)
    ensures Truthy(o) <==> r != ""
    ensures Truthy(o) ==> r == o.value
  {
    if Truthy(o) then o.value else ""
  }

  /** The body of a JSON reply: `{ message }`, a handler-specific payload, or the
      500 body of a caught exception (its text depends on the environment). */
  datatype Body<+T> = Message(text: string) | Data(value: T) | ServerError

  datatype Response<+T> = Response(status: int, body: Body<T>)

  function Reply<T>(status: int, text: string): Response<T> {
    Response(status, Message(text))
  }

  function Ok<T>(v: T): Response<T> {
    Response(200, Data(v))
  }
}
