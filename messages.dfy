/**
 * Chat messages as the app passes them to the language model: Python dicts
 * with a "role" and a "content" key, and the outcome of one model call.
 */
module Messages {
  import opened Wrappers

  datatype Message = Message(role: string, content: string)

  const SYSTEM: string := "system"
  const USER: string := "user"
  const ASSISTANT: string := "assistant"

  function System(content: string): Message {
    Message(SYSTEM, content)
  }

  /** A user or an assistant message: the ones the prompts replay. */
  predicate IsDialogue(m: Message) {
    m.role == USER || m.role == ASSISTANT
  }

  /** Python truthiness of an optional string: `None` and `""` are false. */
  predicate Truthy(x: Option<string>) {
    x.Some? && x.value != ""
  }

  /** What one call to the language model did: it raised (rate limit,
      provider error, malformed reply), or it returned a value. */
  datatype Reply<T> = Raised | Returned(value: T)
}
