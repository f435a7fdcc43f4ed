/** Failure-carrying values shared by the whole model: optional values,
    results, and the values a JavaScript `throw` can deliver to a `catch`. */
module Errors {
  import Decimal

  /** A value that may be absent (`undefined` in the source). */
  datatype Option<+T> = None | Some(value: T) {
    /** The value, or `default` when absent. */
    function GetOr(default: T): T {
      match this
      case Some(v) => v
      case None => default
    }
  }

  /** A computation that either returned a value or threw. */
  datatype Result<+T, +E> = Ok(value: T) | Err(error: E)

  /** What a `catch (error)` block may receive: an `Error` instance with its
      `message`, the protocol SDK's `McpError` (an `Error` subclass that
      carries a JSON-RPC error code), or a thrown value that is not an
      `Error` at all. */
  datatype Thrown = Raised(message: string) | McpRaised(code: int, text: string) | NonError

  /** JSON-RPC 2.0 error codes (section 5.1 of the JSON-RPC 2.0 specification). */
  const MethodNotFound: int := -32601
  const InvalidParams: int := -32602

  /** `error instanceof Error ? error.message : fallback`. The SDK builds an
      `McpError`'s message as `MCP error <code>: <text>`. */
  function MessageOr(t: Thrown, fallback: string): (m: string)
    ensures t.Raised? ==> m == t.message
    ensures t.NonError? ==> m == fallback
    ensures t.McpRaised? ==> "MCP error " <= m && |t.text| < |m| && t.text == m[|m| - |t.text|..]
  {
    match t
    case Raised(m) => m
    case McpRaised(code, text) => "MCP error " + Decimal.IntToString(code) + ": " + text
    case NonError => fallback
  }

  /** How one awaited remote operation completed: it returned, or it threw. */
  datatype Attempt = Done | Threw(thrown: Thrown)
}
