/** What the proxy and the dashboard read out of one JSON-RPC 2.0 frame once `JSON.parse`
    has succeeded: the `id` (section 4 of the JSON-RPC 2.0 specification: a string or a
    number), the `method`, and whether the `error` member (section 5.1) is truthy.
    `JSON.parse` itself is not modelled: callers receive its verdict as a `Parser`. */
module Rpc {
  import opened Wrappers

  /** A JSON-RPC id. Kept apart by kind, so that 1 and "1" are different keys of a
      JavaScript `Map`, as they are in the source. */
  datatype RpcId = Num(n: int) | Str(s: string)

  datatype Parsed = Parsed(id: Option<RpcId>, methodName: Option<string>, hasError: bool)

  /** What `JSON.parse` makes of each text: the domain is every text that `JSON.parse`
      turns into a non-null object or array (`typeof parsed === "object"`); texts that are
      not JSON, and JSON scalars or `null`, are absent. An array, such as a JSON-RPC batch,
      has no `id`, `method` or `error` member of its own, so it maps to
      `Parsed(None, None, false)`. */
  type Parser = imap<string, Parsed>

  /** `JSON.parse(text)` as the source uses it: the object's or array's fields, or None
      where the source's `try` falls into its `catch` or gets a scalar or `null`. */
  function Parse(parser: Parser, text: string): (r: Option<Parsed>)
    ensures r.Some? <==> text in parser
  {
    if text in parser then Some(parser[text]) else None
  }

  datatype Direction = ClientToServer | ServerToClient

  /** JavaScript truthiness of `msg.method`: present and not the empty string. */
  predicate HasMethod(p: Parsed) {
    p.methodName.Some? && p.methodName.value != ""
  }

  /** The shape both the proxy and the dashboard treat as a response:
      `msg.id != null && !msg.method`. */
  predicate ResponseShaped(p: Parsed) {
    p.id.Some? && !HasMethod(p)
  }

  /** The shape the proxy registers as a pending request: `msg.method && msg.id != null`. */
  predicate RequestShaped(p: Parsed) {
    p.id.Some? && HasMethod(p)
  }
}
