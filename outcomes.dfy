/** Values shared by every handler: optional request fields and HTTP replies. */
module Outcomes {

  /** A value that may be absent (`undefined` in the handlers). */
  datatype Option<+T> = None | Some(value: T)

  /** JavaScript truthiness of an optional string field: absent and "" are both falsy. */
  predicate Present(field: Option<string>)
  {
    field.Some? && field.value != ""
  }

  /**
   * What a handler sends back: an error status with its message, or a
   * success status with a body.
   */
  datatype Reply<+T> = Error(status: int, message: string) | Ok(status: int, body: T)
}
