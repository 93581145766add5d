/** Value shapes shared by the server routes, the socket handlers and the client. */
module Values {

  /** An optional value. `None` stands for an absent JSON key, `undefined` or `null`. */
  datatype Option<+T> = None | Some(value: T)

  /** A JSON field that holds a string whenever it is present. */
  type Field = Option<string>

  /** JavaScript truthiness of such a field: present and not the empty string. */
  predicate Truthy(f: Field) {
    f.Some? && f.value != ""
  }

  /** An HTTP reply: a status code with either the JSON body or an `{ error }` body. */
  datatype Reply<+T> = Ok(status: int, value: T) | Error(status: int, error: string)
}
