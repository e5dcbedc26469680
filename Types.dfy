/** The records the chat endpoint and the home page exchange. */
module Types {

  datatype Role = System | User | Assistant

  /** One chat turn, `{role, content}`. */
  datatype Message = Message(role: Role, content: string)

  /** One stored conversation, `{id, name, messages}`; `messages` is oldest first. */
  datatype Conversation = Conversation(id: int, name: string, messages: seq<Message>)
}
