/**
 * The chat message shape (`UIMessage` of the AI SDK) as far as the modelled
 * code reads it: the author's role, the content (a plain string, an array of
 * multimodal parts, or some other value) and the optional `reasoning` field
 * that a reasoning middleware may attach.
 */
module UIMessages {
  import opened Strings

  datatype Role = System | User | Assistant | Data

  /**
   * One element of an array content: either a bare string, or an object with a
   * `type` tag (and, for `type == "text"`, its `text`).
   */
  datatype Part = StringPart(s: string) | TypedPart(kind: string, text: string)

  /**
   * The content of a message. `Other` stands for any value that is neither a
   * string nor an array; it carries the text that `JSON.stringify` gives for it.
   */
  datatype Content = Text(s: string) | Parts(parts: seq<Part>) | Other(serialized: string)

  datatype Message = Message(role: Role, content: Content, reasoning: Option<string>)

  /** JavaScript truthiness of the `reasoning` field: present and non-empty. */
  predicate HasTruthyReasoning(m: Message)
  {
    m.reasoning.Some? && m.reasoning.value != ""
  }
}
