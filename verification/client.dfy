/**
  The database client as the ORM sees it: a handle that is present or absent,
  the calls an operation issues on it, and the replies it gives back. The
  client itself is outside the model: its replies are inputs to each operation.
 */
module Client {
  import opened Wrappers
  import opened Values
  import opened Errors
  import opened Entities

  /** One client instance (`new Surreal()`): `serial` tells instances apart, `live` records a successful connect. */
  datatype Handle = Handle(serial: nat, live: bool)

  /** The object passed to `signin`; scopes the mode does not send are `None`. */
  datatype Credentials = Credentials(username: string, password: string, namespace: Option<string>, database: Option<string>)

  /** A call issued on the client, with the arguments it was given. */
  datatype Call =
    | Open(url: string)
    | Signin(credentials: Credentials)
    | Use(namespace: string, database: string)
    | Query(text: string, params: Option<Object>)
    | CreateRecord(table: string, payload: Object)
    | UpdateRecord(ref: Value, payload: Object)
    | DeleteRecord(ref: Value)
    | Ping
    | Close

  /** What one call did: returned a value (`Undefined` for the void calls) or threw. */
  datatype Reply = Returned(value: Value) | Threw(message: string)

  /** A read-only operation: the calls it issued, in order, and what it resolved or rejected with. */
  datatype Run<T> = Run(calls: seq<Call>, result: Result<T, Error>)

  /**
    An operation on an entity object: the calls it issued, the object's state
    afterwards, and the error it rejected with, if any. On success the promise
    resolves to that same object.
   */
  datatype Mutation = Mutation(calls: seq<Call>, entity: Instance, error: Option<Error>)
}
