/**
 * The transcript store. In the source a transcript is a list of dicts with a
 * "role", a "content" and, for answers, a "name" key; the views read them with
 * `msg.get(...)` and `"name" in msg`, so an absent key is kept apart from an
 * empty value here.
 */
module Transcript {
  import opened Wrappers

  /** "user" (a facilitator question), "assistant" (a persona answer), or anything else. */
  datatype Role = User | Assistant | OtherRole

  datatype Record = Record(role: Role, content: Option<string>, name: Option<string>)

  /** One chat message handed to a participant: `{"role": ..., "content": ...}`. */
  datatype ChatMessage = ChatMessage(role: string, content: string)

  /** The record the interview loop appends for a question. */
  function Question(q: string): Record {
    Record(User, Some(q), None)
  }

  /** The record the interview loop appends for a persona's answer. */
  function Answer(name: string, text: string): Record {
    Record(Assistant, Some(text), Some(name))
  }

  /** `msg.get("content", "")`. */
  function Content(r: Record): string {
    if r.content.Some? then r.content.value else ""
  }

  /** `msg.get("name", "")` shown as a speaker: a falsy name reads "Assistant". */
  function Speaker(r: Record): string {
    if r.name.Some? && r.name.value != "" then r.name.value else "Assistant"
  }
}
