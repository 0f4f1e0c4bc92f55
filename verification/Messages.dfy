/** Conversation messages as the session store and the agent loop see them. */
module Messages {

  /** A message's role; `Other` is any role the code does not single out. */
  datatype Role = System | User | Assistant | Tool | Other(name: string)

  /** `calls` are the ids of an assistant's tool calls, `callId` the call a tool result answers. */
  datatype Message = Message(role: Role, content: string, calls: seq<string>, callId: string)
}
