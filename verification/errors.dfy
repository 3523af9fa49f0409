/** The errors the ORM's operations reject with, and the message each carries. */
module Errors {

  datatype Error =
      /** An operation found no client handle. */
    | NotConnected
      /** `getTableName` found no entity metadata for the class it consults. */
    | NotDecorated(className: string)
      /** `findUnique` was given a field not declared `unique: true`. */
    | NotUnique(field: string)
    | UpdateWithoutId
    | DeleteWithoutId
      /** The client's create call returned no first record. */
    | CreateFailed
      /** A step of `connect` failed; `cause` is the message of the underlying error. */
    | ConnectFailed(cause: string)
      /** An error thrown by the client, surfaced unchanged. */
    | ClientError(message: string)
      /** A JavaScript TypeError: a property read on `undefined`/`null`, or a call of a non-function. */
    | TypeError(message: string)

  /** What `findUnique` adds after the offending field's name. */
  const NotUniqueHint := " is not marked as unique. Only fields decorated with @Property({ unique: true }) can be used with findUnique."

  /** The message each error carries, as the source's `new Error(...)` writes it. */
  function Message(e: Error): string {
    match e
    case NotConnected => "Not connected to SurrealDB"
    case NotDecorated(c) => "Entity " + c + " is not decorated with @Entity"
    case NotUnique(f) => "Field " + f + NotUniqueHint
    case UpdateWithoutId => "Cannot update entity without ID"
    case DeleteWithoutId => "Cannot delete entity without ID"
    case CreateFailed => "Failed to create record"
    case ConnectFailed(cause) => "Failed to connect to SurrealDB: " + cause
    case ClientError(m) => m
    case TypeError(m) => m
  }
}
